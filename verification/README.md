# Verified models of the Bluetooth stack's protocol machines

This project models seven machines of the Bluetooth host stack and its service daemon and proves what
they guarantee over every input, every chunking of a stream and every interleaving of calls and
callbacks. Each machine comes in two forms. A pure specification gives the state, the effect of one
operation and the run over any sequence of operations. A class has the source's fields, in-place updates
and loops, and every method of it is proved to do exactly what the specification says. The main theorems
are stated about the runs; small driver methods (`Execute`, `Drive`, `Serve`, `Session`) show that the
objects follow those runs in state and in output.

- AT command parser (`AtDispatch`, `AtFramer`): the resumable framer of the hands-free audio gateway
  and its table-driven dispatcher. Chunking is invisible, commands that fit come through one for one.
- Indicators (`BiaMask`, `Indicators`): AT+BIA parsing and the change-suppressing cache of what the
  hands-free unit was told. With reporting on, octet values and one-digit +CIND answers the cache equals the
  unit's mirror after every run.
- SCO ownership (`ScoSpec`, `ScoTheorems`, `ScoScenarios`, `ScoController`): the ten-state audio connection
  machine of the CVSD-only build with its three callbacks. No SCO is originated while another control block
  owns the audio; a transfer, once the old connection has closed, calls exactly the block that asked.
- A2DP HAL (`A2dpControl`, `A2dpStream`): control-channel recovery with real bounds, and the output
  stream whose write drops the lock half-way. Suspend holds under every interleaving.
- LE advertising (`Tlv`, `AdvertiseData`, `Advertising`): the TLV walkers and the asynchronous start
  protocol. Every accepted start completes once, within three HAL answers.
- Sectioned blob reads (`BlobReads`): latched snapshots and section arithmetic.
- GATT server (`GattDeclaration`, `GattPublication`, `GattWishes`, `BdAddress`, `GattConnections`,
  `GattIndications`, `GattServer`, `GattSystem`): declaring and publishing services, the two connection indexes, request accounting,
  indications shared between connections, and all of it in one run.

## Environment

What the layers below answer is an input of each step, never assumed to be good: HAL return values and
callback statuses, BTM answers, socket results (in `A2dpControl` an arbitrary function of the whole
channel history), the application's replies. Application callbacks are recorded as outputs. A failed
CHECK, or the use of a missing callback, is an output too, and is proved absent where the source relies on
its absence. These contracts of the environment are stated as predicates (`Allowed`, `Behaves`, `Enabled`,
`Socketlike`):

- GATT and advertising HAL: an accepted request is answered once and for what it asked; attribute handles
  handed out are fresh.
- Connections: a disconnect carries the address the connection was made with. Only `RunAgrees` relies on
  it, and `DisconnectAgrees` proves that it is exactly what agreement of the two indexes needs.
- Sockets: a non-blocking send that succeeds takes at least one byte.
- The AT buffer holds at least two characters; with less the source's outer loop would never end.

Where a promise turned out not to hold of the code, the model keeps the code and the theorem states when
it does hold:

- `FrameRoundTrip`: a command text of n characters is framed intact if and only if n is at most the buffer
  size minus 4.
- `CindAligned`: the cache reads a +CIND answer correctly if and only if the first six values are one digit.
- `TransferMarkStep`, `StrandedTransfer`, `StrandedFromStart`: the transfer pointer of the SCO machine is set
  exactly during transfers unless one of five kinds of step strands it; then a close is reported as a
  transfer that nobody makes.
- `IncomingOwnership`, `RefusedFromStart`: an incoming SCO that finds no owner becomes the owner even in the
  states that refuse it, and until a connection event or a shutdown no request then calls anybody.
- `StartOutcome`, `StartingExactly`: a stream is left STARTING if and only if a write found a data socket open
  although the stream did not play, and nothing got it out since. Without a close request that never
  happens (`SettledUnlessClosing`); a close request followed by suspend and resume leads there
  (`StuckStarting`), and then every write is refused (`StartingRefusesWrites`).
- `SocketKept`, `LateFailure`: a failed write closes the socket it was meant for if and only if no standby,
  suspend or other failed write came in between; otherwise it may end the session after its own.
- `DeletedExactly`, `InstanceReused`: publication is all or nothing in the server's maps, but at the HAL a
  failed one is deleted if and only if its start failed, and its instance number is given out again.
- `CommitExactly`: the two handle maps stay mutual inverses if and only if no handle was granted twice.
- `CommandStatus`: a status returned by a control command was really received if and only if the channel is
  still open afterwards.
- `SizeCheck`: a value longer than the buffer passes the size check of a GATT response if and only if a
  negative offset makes up for the excess.
- `WaitsForConfirmation`, `ReusedIdShut`: an indication survives its connection, and its id stays shut until
  somebody confirms.
- `OrderFreeExactly`: the order of advertising fields is irrelevant if and only if empty and non-empty
  fields for the same slot are not mixed.
- `WholeValue`: m sections rebuild a value if and only if it has at most 512 m octets.

## Model

| member | source | states |
|---|---|---|
| `AtDispatch.StrUCmp` | bta/sys/utl.c:122-148 | returns zero exactly when the first string, upper-cased table text, is a prefix of the upper-cased second |
| `AtDispatch.MatchesExactly` | bta/sys/utl.c:122-148 | a letter of either case matches the capital in the table, any other character only itself |
| `AtDispatch.Str2Int` | bta/sys/utl.c:42-67 | leading blanks aside, the positional value of a non-empty digit string up to 32767, and -1 for everything else |
| `AtDispatch.IntArgExactly` | bta/sys/utl.c:42-67 | after the leading blanks an argument stands for a number exactly when it is a non-empty digit string up to 32767 |
| `AtDispatch.DigitsValue` | bta/sys/utl.c:50-66 | the digit loop gives up exactly on a non-digit or an out-of-range number, so no overflow can hide |
| `AtDispatch.ProcessAt` | bta/ag/bta_ag_at.c:80-171 | the reported callback is that of the first table entry matching the text, with its argument kind and range checked; unknown commands and bad arguments are told apart |
| `AtDispatch.ReportExactly` | bta/ag/bta_ag_at.c:100-171 | for the matching entry: nothing, "?", "=?", "=x" and free text are five kinds, refused unless the entry allows them; an integer set carries its number exactly when it is within min and max |
| `AtDispatch.PrefixFreeDispatch` | bta/ag/bta_ag_at.c:80-99 | in a prefix-free table any matching entry is the only one and decides the report |
| `AtDispatch.HfpTrieFinds` | bta/ag/bta_ag_cmd.c:131-163 | a decision tree over the first characters finds every HFP entry that is a prefix of a text |
| `AtDispatch.HfpTablePrefixFree` | bta/ag/bta_ag_cmd.c:131-163 | no HFP command is a prefix of another |
| `AtDispatch.AtMostOneCommand` | bta/ag/bta_ag_cmd.c:121-163 | whatever text the peer sends, at most one entry of the HFP table and at most one of the HSP table matches it |
| `AtFramer.FeedAppend` | bta/ag/bta_ag_at.c:185-238 | feeding two pieces in turn equals feeding their concatenation: same frames, same line left over |
| `AtFramer.FeedRoom` | bta/ag/bta_ag_at.c:195-237 | discarding a full line lazily or at once makes no difference once a character follows |
| `AtFramer.Parser.constructor` | bta/ag/bta_ag_at.c:44-48 | a new parser is idle |
| `AtFramer.Parser.Reinit` | bta/ag/bta_ag_at.c:62-66 | the buffer is released and the parser idle |
| `AtFramer.Parser.EndLine` | bta/ag/bta_ag_at.c:207-222 | a line end hands on the text after "AT" exactly when there is some, and empties the line |
| `AtFramer.Parser.Accept` | bta/ag/bta_ag_at.c:197-233 | one character changes the line and reports as the per-character step says, inside the buffer |
| `AtFramer.Parser.Fill` | bta/ag/bta_ag_at.c:197-233 | the inner loop folds the step over what it consumes and stops only at the end or at a full buffer |
| `AtFramer.Parser.Parse` | bta/ag/bta_ag_at.c:185-238 | for every chunk the nested loops with their lazy discard equal one left fold of the per-character step; in bounds and terminating |
| `AtFramer.ParseChunks` | bta/ag/bta_ag_at.c:185-238 | any chunking of a stream gives the callbacks and the final line of the undivided stream |
| `AtFramer.LinesFit` | bta/ag/bta_ag_at.c:195-237 | no command text longer than the buffer size minus 4 is ever handed on |
| `AtFramer.FrameRoundTrip` | bta/ag/bta_ag_at.c:195-237 | a rendered plain command is framed as exactly its text if and only if it has at most max-4 characters |
| `AtFramer.StreamRoundTrip` | bta/ag/bta_ag_at.c:185-238 | any list of commands that fit, rendered back to back, is framed one for one and in order, ending idle |
| `AtFramer.Session` | bta/ag/bta_ag_at.c:80-238 | end to end: such a stream in any chunks causes exactly one callback per command, in order, and leaves the parser idle |
| `AtFramer.Resynchronises` | bta/ag/bta_ag_at.c:195-237 | after arbitrary input one line end makes every later command that fits come through |
| `AtFramer.OthersDropped` | bta/ag/bta_ag_at.c:207-222 | a line that fits is handed on without its first two characters exactly when these are AT in either case and something follows; otherwise it is dropped |
| `AtFramer.EscapesReported` | bta/ag/bta_ag_at.c:223-228 | control-Z or escape ends any line that fits and hands it with the character to the error callback |
| `AtFramer.NulsSkipped` | bta/ag/bta_ag_at.c:199-204 | NUL characters between lines are skipped |
| `AtFramer.OverflowDropped` | bta/ag/bta_ag_at.c:195-237 | a line that fills the buffer is thrown away by the next character, which starts a new line |
| `BiaMask.SplitJoin` | bta/ag/bta_ag_cmd.c:1344-1358 | fields joined by commas are split back unchanged |
| `BiaMask.ApplyBit` | bta/ag/bta_ag_cmd.c:1349-1352 | bit k of the new mask depends on field k alone: 0 sets it, 1 clears it, empty keeps it |
| `BiaMask.KeptSuffices` | bta/ag/bta_ag_cmd.c:1337-1342 | cutting the argument to the buffer changes no verdict, and an acceptable argument is never cut |
| `BiaMask.AcceptedText` | bta/ag/bta_ag_cmd.c:1344-1367 | the accepted arguments character by character: zeros, ones and commas, no two digits together, at most nineteen commas or twenty with one at the end |
| `BiaMask.ParseBia` | bta/ag/bta_ag_cmd.c:1337-1367 | for every argument of any length the scan accepts exactly lists of at most twenty empty, 0 or 1 fields (one trailing comma tolerated), applies them field by field, and otherwise changes nothing |
| `Indicators.Scb.SendInd` | bta/ag/bta_ag_cmd.c:520-594 | the cache after a send and what reaches the peer, with mask, change suppression and reporting switch |
| `Indicators.SendExactly` | bta/ag/bta_ag_cmd.c:520-594 | when the unit is told, with which value, and what is kept: mandatory or unmasked, not already known save callheld 1, other indicators untouched |
| `Indicators.Scb.CindResult` | bta/ag/bta_ag_cmd.c:1845-1858 | the cache takes the digits at the even positions of the answer passed on |
| `Indicators.Scb.BiaCommand` | bta/ag/bta_ag_cmd.c:1337-1367 | the argument as received is accepted exactly when its comma-separated fields are legal; then the mask changes field by field, otherwise not at all |
| `Indicators.SendCoherent` | bta/ag/bta_ag_cmd.c:520-594 | with reporting on, one send keeps cache and mirror equal if and only if the value fits the stored octet, and sends nothing already known |
| `Indicators.ShowsReported` | bta/ag/bta_ag_cmd.c:520-594 | with reporting on, the unit shows for an unmasked indicator what the application reported last |
| `Indicators.ShowsCall` | bta/ag/bta_ag_cmd.c:934-959 | the call and callsetup the unit shows after each call result |
| `Indicators.SwapForcesReport` | bta/ag/bta_ag_cmd.c:1140-1155 | after AT+CHLD=2 with one active call and none in set-up the next callheld report goes out whatever it says; otherwise nothing changes |
| `Indicators.CindCoherent` | bta/ag/bta_ag_cmd.c:1845-1858 | whatever the +CIND answer, cache and mirror agree after it if and only if the digits at the fixed positions are the fields |
| `Indicators.CindAligned` | bta/ag/bta_ag_cmd.c:1845-1853 | the fixed positions read the rendered fields if and only if the first six values are below ten |
| `Indicators.RunCoherent` | bta/ag/bta_ag_cmd.c:520-594 | over every run with reporting on, octet values and +CIND answers listing seven numbers of which the first six have one digit, the six stored indicators equal the unit's mirror built from +CIND and +CIEV, masked or not, and no +CIEV repeats a mirrored value |
| `Indicators.MaskedStep` | bta/ag/bta_ag_cmd.c:1337-1367 | an event keeps an indicator masked if and only if it neither re-enables it by an accepted AT+BIA nor opens a connection that was not up |
| `Indicators.SwitchesExactly` | bta/ag/bta_ag_cmd.c:1337-1367 | what changes the reporting switch, the connection flag and each bit of the mask, and nothing else does |
| `Indicators.MaskedNeverSent` | bta/ag/bta_ag_cmd.c:525-529 | a masked optional indicator is not reported in any run until re-enabled or a new connection opens; an open event on a connection already up changes nothing |
| `Indicators.Drive` | bta/ag/bta_ag_cmd.c:520-959 | any sequence of events on the control block leaves it in the state of the specified run and returns exactly that run's results |
| `Indicators.Session` | bta/ag/bta_ag_cmd.c:520-594 | hence the object itself stays in agreement with the mirror built from what it returned, and repeats nothing |
| `ScoSpec.ScoEvent` | bta/ag/bta_ag_sco.c:759-1372 | in every state and for every event the transfer pointer is non-null whenever the new state is a transfer state, and pointers stay in range |
| `ScoSpec.ConnClosed` | bta/ag/bta_ag_sco.c:1577-1636 | a closed connection keeps the machine valid, with the SCO-only retry |
| `ScoSpec.ConnCallback` | bta/ag/bta_ag_sco.c:191-222 | the connect callback keeps the machine valid |
| `ScoSpec.DiscCallback` | bta/ag/bta_ag_sco.c:234-319 | the disconnect callback keeps the machine valid |
| `ScoSpec.ConnRequest` | bta/ag/bta_ag_sco.c:393-433 | the incoming connection callback keeps the machine valid |
| `ScoTheorems.ScoEventAccounts` | bta/ag/bta_ag_sco.c:759-1372 | every event of the machine changes the owner only by permitted, observable steps |
| `ScoTheorems.ConnClosedAccounts` | bta/ag/bta_ag_sco.c:1577-1636 | so does a connection close, including its retry as plain SCO |
| `ScoTheorems.ConnRequestAccounts` | bta/ag/bta_ag_sco.c:393-433 | so does an incoming connection: it is adopted only when nobody owns the audio |
| `ScoTheorems.CloseCalls` | bta/ag/bta_ag_sco.c:1577-1636 | a closed connection leads to a call for the block it was for or for the one waiting to take over, and adopts nobody but the latter |
| `ScoTheorems.NextAccounts` | bta/ag/bta_ag_sco.c:191-433 | every API call, message and callback accounts for the owner pointer |
| `ScoTheorems.RunAccounts` | bta/ag/bta_ag_sco.c:482-666 | over every interleaving, whenever an SCO is originated no different block is the recorded owner |
| `ScoTheorems.TransferNeedsRelease` | bta/ag/bta_ag_sco.c:1226-1276 | between originating an SCO for one block and for another the first has given up its ownership |
| `ScoTheorems.RequestsWait` | bta/ag/bta_ag_sco.c:934-1282 | while an owner waits for its connection to open or close, no sequence of listen, open and close requests for any blocks originates or removes an SCO or changes the owner |
| `ScoTheorems.IncomingOwnership` | bta/ag/bta_ag_sco.c:393-433 | an incoming connection without owner is always adopted but accepted in exactly three states; accepted or refused, it keeps the audio and nobody is called through any sequence of requests that follows |
| `ScoTheorems.RefusedFromStart` | bta/ag/bta_ag_sco.c:393-433 | and this happens: five steps from the initial state, an incoming connection is refused and owns the audio, and no sequence of requests of either headset then leads to a call |
| `ScoTheorems.TransferMarkStep` | bta/ag/bta_ag_sco.c:1045-1101 | a step keeps "transfer pointer set exactly in transfer states" if and only if it is not one of the five stranding steps |
| `ScoTheorems.StrandedTransfer` | bta/ag/bta_ag_sco.c:1045-1054 | whenever a close overtakes an incoming transfer, the next close is reported as a transfer while nobody is adopted or called |
| `ScoTheorems.StrandedFromStart` | bta/ag/bta_ag_sco.c:1045-1054 | and this happens: six steps from the initial state reach a transfer that a close then overtakes, with that outcome |
| `ScoScenarios.EventExactly` | bta/ag/bta_ag_sco.c:759-1372 | a reference for the whole state switch: for every state, event and block, where the machine goes, and exactly when that block is called, listened for, closed, adopted or cleared, and who waits then |
| `ScoScenarios.DealingsExactly` | bta/ag/bta_ag_sco.c:352-666 | what creating and removing an SCO does to a block: index given, retry armed only for an eSCO to a capable peer, index lost only when gone |
| `ScoScenarios.BlocksStay` | bta/ag/bta_ag_sco.c:759-1372 | no event touches a block that is not its own, the owner or the waiting one, nor the fields other parts of the gateway keep |
| `ScoScenarios.TransferMade` | bta/ag/bta_ag_sco.c:1253-1276 | when the old connection has closed, its block is listened for and exactly the waiting block is called and owns the audio |
| `ScoScenarios.TransferServed` | bta/ag/bta_ag_sco.c:1081-1276 | a second block asks, others ask after it, the first is closed: the call goes to the block that asked first |
| `ScoScenarios.IncomingServed` | bta/ag/bta_ag_sco.c:393-433 | a second headset calling in has the first closed for it, or is accepted at once if that cannot be started |
| `ScoScenarios.IncomingMade` | bta/ag/bta_ag_sco.c:1061-1079 | and is accepted and owns the audio when the first has closed |
| `ScoScenarios.IncomingRefused` | bta/ag/bta_ag_sco.c:393-433 | a request is refused without effect exactly when the peer has no block in use with a service connection |
| `ScoScenarios.OpenServed` | bta/ag/bta_ag_sco.c:818-880 | an open request without other owner calls its block, which owns the audio |
| `ScoScenarios.CloseServed` | bta/ag/bta_ag_sco.c:1081-1179 | a close request closes the connection; after that the block is listened for and nobody owns the audio |
| `ScoScenarios.ReopenServed` | bta/ag/bta_ag_sco.c:1134-1224 | an open request during a close is served after it, and taken back by another close request |
| `ScoScenarios.RecloseServed` | bta/ag/bta_ag_sco.c:934-1043 | a close request during an open is served when it is open, and taken back by another open request |
| `ScoScenarios.RetriedOnce` | bta/ag/bta_ag_sco.c:1577-1636 | a failed eSCO is tried again as plain SCO without a report, and not a third time |
| `ScoScenarios.ShutdownServed` | bta/ag/bta_ag_sco.c:1081-1347 | the last headset leaves: closed, then shut down without owner |
| `ScoScenarios.CallbacksExactly` | bta/ag/bta_ag_sco.c:191-319 | whom the connect and disconnect callbacks are posted to, and when they drop the connection or shut the machine down |
| `ScoController.Controller.CreateSco` | bta/ag/bta_ag_sco.c:482-666 | creating an originating or listening SCO, with eSCO or plain SCO packets and the owner update |
| `ScoController.Controller.RemoveSco` | bta/ag/bta_ag_sco.c:352-380 | the owner becomes the block exactly when a disconnection was started for it and is untouched otherwise; the block's index is lost only when BTM says the connection is gone already |
| `ScoController.Controller.Handle` | bta/ag/bta_ag_sco.c:759-1372 | in every state, for every event and on shared block objects, every block gets exactly what the reference says, and the owner pointer changes only by permitted, observable steps |
| `ScoController.Controller.ScoOpen` | bta/ag/bta_ag_sco.c:1438-1455 | an open request accounts for the owner and originates nothing while another block owns the audio |
| `ScoController.Controller.ScoClose` | bta/ag/bta_ag_sco.c:1467-1482 | a close request accounts for the owner, calls nobody and adopts nobody |
| `ScoController.Controller.ScoConnOpen` | bta/ag/bta_ag_sco.c:1537-1565 | an opened connection accounts for the owner, ends the SCO-only retry, calls nobody and adopts nobody |
| `ScoController.Controller.ScoConnClose` | bta/ag/bta_ag_sco.c:1577-1636 | a closed connection accounts for the owner and clears the retry flag; only the block itself or the one waiting is called; a transfer that is due calls the waiting block, which then owns the audio |
| `ScoController.Controller.ConnCback` | bta/ag/bta_ag_sco.c:191-222 | an opened connection goes to its owner, else to the peer's block, else is dropped and the owner cleared |
| `ScoController.Controller.DiscCback` | bta/ag/bta_ag_sco.c:234-319 | a closed connection is posted to the recorded owner only, and only for its own or an unset index; an owner deallocated meanwhile is forgotten and the machine shut down |
| `ScoController.Controller.ConnReqCback` | bta/ag/bta_ag_sco.c:393-433 | an incoming connection originates nothing and is adopted only when nobody owns the audio, becoming the owner then |
| `ScoController.Execute` | bta/ag/bta_ag_sco.c:191-433 | any run of the object follows the specified run and so has the ownership property |
| `A2dpControl.Channel.CtrlReceive` | audio_a2dp_hw/audio_a2dp_hw.c:378-407 | at most three receives; anything but data closes the channel |
| `A2dpControl.ReceivesThree` | audio_a2dp_hw/audio_a2dp_hw.c:378-407 | the answer is the first of three receives that is not "try again", or the third |
| `A2dpControl.Channel.SendCommand` | audio_a2dp_hw/audio_a2dp_hw.c:409-451 | the mutually recursive command equals a recursion-free specification: recovery probes always find the channel open |
| `A2dpControl.Channel.CheckReady` | audio_a2dp_hw/audio_a2dp_hw.c:453-462 | the readiness probe is one command on an open channel |
| `A2dpControl.Channel.OpenCtrlPath` | audio_a2dp_hw/audio_a2dp_hw.c:489-512 | at most three attempts, each connecting and probing |
| `A2dpControl.RetryThree` | audio_a2dp_hw/audio_a2dp_hw.c:489-512 | attempts are made until one succeeds, three at most |
| `A2dpControl.ServedClosed` | audio_a2dp_hw/audio_a2dp_hw.c:409-512 | on a closed channel a ready stack gets one connect, one probe and the command byte once, and its acknowledgement is returned; one that is not ready is tried three times and never gets the byte |
| `A2dpControl.CommandBounds` | audio_a2dp_hw/audio_a2dp_hw.c:409-512 | however the stack behaves: at most two nested commands, three connects, three probes besides the command, twelve receives and six sleeps; on an open channel nothing is reopened |
| `A2dpControl.CommandStatus` | audio_a2dp_hw/audio_a2dp_hw.c:378-451 | the channel is still open afterwards if and only if a status byte was received in answer to this command, and then that byte is what is returned; a success on a closed channel is the value of a byte never written |
| `A2dpControl.CommandSends` | audio_a2dp_hw/audio_a2dp_hw.c:409-512 | however much recovery it takes, a command puts its own byte on the channel at most once and beside it only readiness probes |
| `A2dpControl.SktWrite` | audio_a2dp_hw/audio_a2dp_hw.c:318-356 | the socket gets a prefix of the buffer in order, all of it if and only if the length is returned; at most 100 sleeps; failure only on a broken socket or when the time is used up |
| `A2dpStream.OutStream.constructor` | audio_a2dp_hw/audio_a2dp_hw.c:520-536 | a stream begins stopped and unconnected |
| `A2dpStream.OutStream.StartAudioDatapath` | audio_a2dp_hw/audio_a2dp_hw.c:538-598 | every failure restores the state held before; success opens the data socket only if none was open |
| `A2dpStream.OutStream.OutWriteBegin` | audio_a2dp_hw/audio_a2dp_hw.c:682-716 | the first locked half: START is sent only from stopped or standby, and a refused write still counts its frames |
| `A2dpStream.GoesOnExactly` | audio_a2dp_hw/audio_a2dp_hw.c:538-716 | which writes go on to the socket, and what a refused one leaves behind |
| `A2dpStream.WriteEndExactly` | audio_a2dp_hw/audio_a2dp_hw.c:731-761 | a write's frames count either way; a failure stops the stream but undoes no suspend or close |
| `A2dpStream.Execute` | audio_a2dp_hw/audio_a2dp_hw.c:671-991 | any interleaving of locked sections follows the specified run |
| `A2dpStream.CommandsExactly` | audio_a2dp_hw/audio_a2dp_hw.c:628-991 | which commands each locked section sends, in order |
| `A2dpStream.SuspendedStep` | audio_a2dp_hw/audio_a2dp_hw.c:628-991 | a section leaves the stream SUSPENDED exactly if it was told so and neither refused nor closing, or was so before and not resumed or closed |
| `A2dpStream.SuspendedWasTold` | audio_a2dp_hw/audio_a2dp_hw.c:947-991 | in every run a stream found SUSPENDED was so at the start or has been told to suspend |
| `A2dpStream.StandbyRestarts` | audio_a2dp_hw/audio_a2dp_hw.c:538-856 | a standby not refused leaves STANDBY without socket, and the next write sends one START, goes on and plays on the new socket |
| `A2dpStream.ResumeRestarts` | audio_a2dp_hw/audio_a2dp_hw.c:682-991 | a suspended stream refuses and counts every write; resumed, the next one restarts it |
| `A2dpStream.SuspendHolds` | audio_a2dp_hw/audio_a2dp_hw.c:682-991 | from SUSPENDED, no interleaving of writes, standby, closing and parameters sends START until A2dpSuspended is set to something else |
| `A2dpStream.StartedHasSocket` | audio_a2dp_hw/audio_a2dp_hw.c:538-651 | STARTED implies an open data socket after every interleaving, late write failures included |
| `A2dpStream.StartOutcome` | audio_a2dp_hw/audio_a2dp_hw.c:538-598 | a locked section leaves the stream STARTING if and only if it is a write that finds a data socket open on a stopped or standby stream and whose START succeeds |
| `A2dpStream.StartingExactly` | audio_a2dp_hw/audio_a2dp_hw.c:538-991 | after any interleaving the stream is STARTING if and only if such a write occurred and nothing since got it out, with the exact steps that would |
| `A2dpStream.SettledUnlessClosing` | audio_a2dp_hw/audio_a2dp_hw.c:538-651 | without a close request the socket is open exactly while STARTED and STARTING is never left behind |
| `A2dpStream.StuckStarting` | audio_a2dp_hw/audio_a2dp_hw.c:937-991 | with one, every playing stream can be brought to STARTING with its old socket |
| `A2dpStream.StartingRefusesWrites` | audio_a2dp_hw/audio_a2dp_hw.c:690-716 | and then no sequence of writes gets it out |
| `A2dpStream.SocketKept` | audio_a2dp_hw/audio_a2dp_hw.c:628-761 | between the halves of a write the stream keeps its data socket if and only if no standby, suspend or failed write closes it |
| `A2dpStream.LateFailure` | audio_a2dp_hw/audio_a2dp_hw.c:731-753 | otherwise a late failure can hit the next session: with suspend, resume and a new write in between, the old write closes the new socket and stops the stream |
| `A2dpStream.FramesConserved` | audio_a2dp_hw/audio_a2dp_hw.c:756-761 | every completed write is counted as presented exactly once; rendered never exceeds presented |
| `A2dpStream.ChannelFollows` | audio_a2dp_hw/audio_a2dp_hw.c:409-651 | the stream with its commands answered by the channel goes through an ordinary run, and no byte but readiness probes enters the channel more often than that run sends it |
| `A2dpStream.SuspendedChannelQuiet` | audio_a2dp_hw/audio_a2dp_hw.c:409-991 | however the stack behaves, no START byte enters the channel of a suspended stream until A2dpSuspended is set to something else |
| `A2dpStream.Play` | audio_a2dp_hw/audio_a2dp_hw.c:409-991 | the two objects, stream and channel, follow the joint run and so keep the channel quiet |
| `Tlv.ParseEncode` | service/common/bluetooth/advertise_data.cpp:43-85 | an encoding parses to its fields |
| `Tlv.EncodeParse` | service/common/bluetooth/advertise_data.cpp:43-85 | whatever parses is the encoding of its fields, so they are unique |
| `Tlv.IsValid` | service/common/bluetooth/advertise_data.cpp:43-85 | valid exactly when the data splits into whole fields none of which has a reserved type |
| `Tlv.ScanRecordLength` | service/low_energy_client.cpp:50-69 | returns an end up to which whole fields reach and where padding begins; a CHECK fails exactly when there is none |
| `Tlv.EndUnique` | service/low_energy_client.cpp:50-69 | a record has at most one such end |
| `Tlv.ScanRecordRoundTrip` | service/low_energy_client.cpp:50-69 | for every field list that fits in 62 octets, zero-padded, the end is exactly the encoded size and the prefix parses back |
| `Tlv.MeasureEncoded` | service/low_energy_client.cpp:50-69 | the walker itself returns exactly the encoded size of every field list that fits, zero-padded, and what it measured parses back |
| `AdvertiseData.ProcessUuid` | service/low_energy_client.cpp:80-107 | reversal into the big-endian base UUID and back equals widening by the little-endian Base UUID tail |
| `AdvertiseData.ProcessServiceData` | service/low_energy_client.cpp:109-158 | a service data field is taken exactly when it holds a whole UUID, no payload was taken before and its widened UUID agrees |
| `AdvertiseData.ProcessField` | service/low_energy_client.cpp:177-237 | a field is taken or refused exactly as the field-wise specification says, with the result untouched on refusal |
| `AdvertiseData.ProcessAdvertiseData` | service/low_energy_client.cpp:160-242 | the byte walk equals processing the parsed fields in order |
| `AdvertiseData.ProcessExact` | service/low_energy_client.cpp:80-242 | exactly which field lists are accepted and with what result: legal types and lengths, only the last field for a slot carrying anything, one UUID |
| `AdvertiseData.FieldCarries` | service/low_energy_client.cpp:80-237 | what each type of field carries, octet by octet |
| `AdvertiseData.LegalExactly` | service/low_energy_client.cpp:177-237 | which types and lengths are taken at all |
| `AdvertiseData.OrderIrrelevant` | service/low_energy_client.cpp:160-242 | unless empty and non-empty fields for a slot are mixed, any reordering has the same outcome, accepted or not |
| `AdvertiseData.MixedOrderMatters` | service/low_energy_client.cpp:177-191 | if they are mixed, some order of an accepted list is rejected |
| `AdvertiseData.OrderFreeExactly` | service/low_energy_client.cpp:160-242 | an accepted list may be reordered freely if and only if it is unmixed |
| `AdvertiseData.Recover` | service/low_energy_client.cpp:160-242 | encode, then process: the HAL gets exactly what the fields carry and nothing else |
| `AdvertiseData.AdvertisementRecovered` | service/low_energy_client.cpp:80-242 | manufacturer data and data for a 16-bit service, written out and processed, reach the HAL as they were with the UUID widened |
| `Advertising.LowEnergyClient.StartAdvertising` | service/low_energy_client.cpp:451-514 | a start is refused while started or starting or for invalid data, before anything changes; an accepted one marks its work and keeps its callback |
| `Advertising.LowEnergyClient.SetAdvertiseData` | service/low_energy_client.cpp:721-774 | a request goes out only for convertible data and a free slot; only a request taken by the HAL clears its flag |
| `Advertising.LowEnergyClient.HandleDeferred` | service/low_energy_client.cpp:776-806 | the deferred work: advertising data first, then scan response, then success |
| `Advertising.NextKeeps` | service/low_energy_client.cpp:451-825 | every call and every allowed answer keeps the protocol invariant: one open request per pending operation, flags and story in step |
| `Advertising.RunSafe` | service/low_energy_client.cpp:451-825 | in every run no CHECK fires, every accepted start and stop completes once and in order, started excludes a pending start, a pending stop means started, work flags mean a pending start |
| `Advertising.CompletesWithinThree` | service/low_energy_client.cpp:651-806 | every accepted start completes within three HAL answers whatever comes between |
| `Advertising.SuccessStory` | service/low_energy_client.cpp:776-806 | success is reported exactly when enabling, the advertising data the call passed and then its scan response, if any, were all accepted; any other completion leaves the client not started |
| `Advertising.AdvertisesWhatWasAsked` | service/low_energy_client.cpp:451-806 | from a new client: before a success the HAL was asked to enable, for the data of the accepted call and for its scan response, each after a good answer, and for nothing else |
| `Advertising.FailureStatus` | service/low_energy_client.cpp:651-806 | a failed start is told the status of the bad answer or why the next request was not taken |
| `Advertising.AcceptedExactly` | service/low_energy_client.cpp:451-543 | which start and stop calls are accepted in any reachable state, and what they ask of the HAL |
| `Advertising.StopStory` | service/low_energy_client.cpp:698-719 | a stop completes with the status of its answer and ends advertising exactly when that was good |
| `Advertising.TraceSafe` | service/low_energy_client.cpp:451-825 | in every run that keeps to the HAL's contract no call or callback fails a CHECK |
| `Advertising.Session` | service/low_energy_client.cpp:451-825 | the object driven through any such run ends in its state, returns exactly its outputs, keeps the protocol invariant and fails no CHECK |
| `BlobReads.ServerInternals.RequestRead` | service/gatt_server_old.cpp:161-201 | the response is the rest of the selected section from the offset on, after latching a pending value on a fresh read |
| `BlobReads.ServerInternals.RequestWrite` | service/gatt_server_old.cpp:203-232 | a write resizes and overwrites; one octet in a control attribute selects the target's section |
| `BlobReads.WriteExactly` | service/gatt_server_old.cpp:203-232 | the value after a write: what was written from the offset on, the old octets or zeros before it; exactly one octet in a control attribute selects a section, and no other attribute changes |
| `BlobReads.WriteThenRead` | service/gatt_server_old.cpp:161-232 | a written value of one attribute is read back from any offset |
| `BlobReads.OthersUntouched` | service/gatt_server_old.cpp:161-201 | reading or setting a value touches its own attribute alone, and when a read changes what is shown |
| `BlobReads.ServerInternals.SetCharacteristicValue` | service/gatt_server_old.cpp:749-770 | a new value waits beside the shown one |
| `BlobReads.Serve` | service/gatt_server_old.cpp:161-232 | any sequence of requests on the object ends in the specified state with exactly the specified responses |
| `BlobReads.SliceArithmetic` | service/gatt_server_old.cpp:175-195 | the offset and size arithmetic yields exactly octets 512k to 512(k+1) of the value, from the offset on |
| `BlobReads.Snapshot` | service/gatt_server_old.cpp:161-201 | until the next fresh read or client write every response is a slice of the latched value, whatever is set meanwhile |
| `BlobReads.FreshReadShowsLatest` | service/gatt_server_old.cpp:167-173 | a fresh read after setting a value shows that value |
| `BlobReads.OfferedIsLastSet` | service/gatt_server_old.cpp:749-770 | what the next fresh read will show is the value set last, or the one before if none was set |
| `BlobReads.LatchedIsLastSet` | service/gatt_server_old.cpp:161-232 | the value a fetch latches is the one set last before its first read |
| `BlobReads.FetchRebuilds` | service/gatt_server_old.cpp:161-232 | reading sections 0, 1, 2, ... yields the sections of one latched value despite other activity in between |
| `BlobReads.WholeValue` | service/gatt_server_old.cpp:161-232 | m of at most 256 sections rebuild the latched value exactly if and only if it has at most 512 m octets |
| `GattDeclaration.DeclaredDistinct` | service/gatt_server.cpp:233-296 | identifiers numbered by counting never collide within a declaration |
| `GattPublication.DeclaredIdsFresh` | service/gatt_server.cpp:76-164 | they also differ from everything published, each descriptor names the nearest characteristic before it, and the handle count is 1 + 2 characteristics + descriptors |
| `GattWishes.RunHonours` | service/gatt_server.cpp:76-212 | in every run the server declares and publishes the service begun and, in order, the characteristics and descriptors added to it with their UUIDs, properties and permissions, all taken from the application's calls |
| `GattWishes.EndAsks` | service/gatt_server.cpp:166-212 | handing over asks the HAL for that service with one handle, two per characteristic and one per descriptor |
| `GattWishes.GrantAsks` | service/gatt_server.cpp:843-906 | each grant is followed by the request for the next wish with its UUID, properties and permissions under the service's handle, the last by the start |
| `GattWishes.ReportsWhy` | service/gatt_server.cpp:497-624 | a finished publication reports the service begun and the status that ended it |
| `GattWishes.IdsReturned` | service/gatt_server.cpp:76-296 | which declaring calls return an identifier, and which one: numbered by what came before with the UUID, descriptors under the latest characteristic |
| `GattPublication.AnswerFits` | service/gatt_server.cpp:497-624 | under the HAL contract every answer is the awaited one and passes every CHECK |
| `GattPublication.CommitPublished` | service/gatt_server.cpp:819-834 | committing keeps the two maps mutual inverses and the instances of each UUID exactly 0 to n-1 |
| `GattPublication.CommitExactly` | service/gatt_server.cpp:819-834 | in whatever order handles are entered, a commit of fresh ones keeps the maps mutual inverses if and only if no handle was granted twice |
| `GattPublication.NextKeeps` | service/gatt_server.cpp:76-212 | every call and answer keeps the publication invariant |
| `GattPublication.RunSafe` | service/gatt_server.cpp:497-624 | in every run no CHECK fires, the maps are mutual inverses, instances are dense, every accepted end of declaration is reported once and in order, and requests follow the declaration, each after the grant before it |
| `GattPublication.AllOrNothing` | service/gatt_server.cpp:819-906 | a publication ends with exactly the declared identifiers and their granted handles added, or with the maps unchanged; nothing pending is left |
| `GattPublication.DeletedExactly` | service/gatt_server.cpp:598-624 | a failed publication is deleted at the HAL if and only if it is the start that failed; otherwise what was added stays behind |
| `GattPublication.InstanceReused` | service/gatt_server.cpp:214-231 | and the next declaration with that UUID gets the instance number of the service that failed |
| `GattConnections.RunSound` | service/gatt_server.cpp:448-495 | in every run, whatever addresses disconnects carry, a connection known by id is in the bucket of its address and a bucket holds connections of its address, each once |
| `GattConnections.KnownExactly` | service/gatt_server.cpp:448-495 | which connections a connect and a disconnect leave known |
| `GattConnections.DisconnectAgrees` | service/gatt_server.cpp:462-480 | a disconnect keeps the indexes in agreement if and only if it names the address the connection was made with or an unknown connection |
| `GattConnections.AgreeExactly` | service/gatt_server.cpp:448-495 | when the indexes agree, the bucket of an address holds exactly the connections with that address |
| `GattConnections.RunAgrees` | service/gatt_server.cpp:448-495 | in every run with orderly disconnects the indexes agree |
| `GattConnections.SizeCheck` | service/gatt_server.cpp:318-321 | the unsigned size check lets through exactly the values that end within the buffer; one longer than the buffer passes if and only if a negative offset makes up for it |
| `GattConnections.Accounting` | service/gatt_server.cpp:298-367 | for every connection object, request id and handle and every run, orderly or not: recorded = answered + dropped + still answerable |
| `GattConnections.RecordedExactly` | service/gatt_server.cpp:634-791 | which requests are recorded, for which connection and handle |
| `GattConnections.RespondExactly` | service/gatt_server.cpp:298-367 | a response goes out exactly when the address is well-formed, the value fits, the HAL takes it and the request is pending on that device, the latest connection counting; connection, request, error, handle, offset and value are those of the call and the request, which alone is closed |
| `GattIndications.ReportedOnce` | service/gatt_server.cpp:369-446 | every notification is reported exactly when it went out and all its connections have confirmed, never twice, as success if and only if some confirmation was good |
| `GattIndications.OneOutstanding` | service/gatt_server.cpp:405-411 | no connection ever waits on two indications |
| `GattIndications.AcceptedMeansSent` | service/gatt_server.cpp:369-446 | a call is accepted exactly when the notification went out on some connection |
| `GattIndications.SendingsExactly` | service/gatt_server.cpp:398-438 | the HAL is asked only for connections of the device that do not wait and with the given message; it took the message exactly where it then waits, at most once per connection |
| `GattIndications.InvokedExactly` | service/gatt_server.cpp:793-817 | a confirmation invokes the caller's callback exactly when its indication has just been reported, with success if some confirmation was good and else the status of this last one |
| `BdAddress.FromString` | service/common/bluetooth/util/address_helper.cpp:31-56 | splitting, trimming and reading each piece as strtol does accepts exactly six two-character octets separated by colons |
| `BdAddress.TokensExactly` | service/common/bluetooth/util/address_helper.cpp:31-56 | with seventeen characters there is no room for anything trimming would forgive |
| `GattServer.Server.CountServices` | service/gatt_server.cpp:214-231 | the loop counts the published services with a UUID, primary or not |
| `GattServer.Server.BeginServiceDeclaration` | service/gatt_server.cpp:76-105 | a declaration begins only when none is under way, numbered by the published services of its UUID |
| `GattServer.Server.CountCharacteristics` | service/gatt_server.cpp:233-254 | the loop counts the declared characteristics with a UUID |
| `GattServer.Server.AddCharacteristic` | service/gatt_server.cpp:107-134 | a characteristic is added only to an open declaration, numbered by the earlier ones of its UUID, at two handles |
| `GattServer.Server.OwnerAndInstance` | service/gatt_server.cpp:256-296 | the backward walk finds the owning characteristic and counts its descriptors with the UUID |
| `GattServer.Server.AddDescriptor` | service/gatt_server.cpp:136-164 | a descriptor is added at one handle only when a characteristic precedes it with nothing but descriptors between |
| `GattServer.Server.EndServiceDeclaration` | service/gatt_server.cpp:166-212 | an accepted end hands the service with its handle count to the HAL; a HAL refusal clears everything pending and is not reported twice |
| `GattServer.Server.EnterHandles` | service/gatt_server.cpp:824-829 | entering handles in any order overwrites the reverse map with an identifier for each pending handle and nothing else |
| `GattServer.Server.NotifyEndCallback` | service/gatt_server.cpp:819-841 | the maps change only on success, keep entries already there, and nothing pending is left in either case, for any pending map |
| `GattServer.Server.HandleNextEntry` | service/gatt_server.cpp:843-906 | requests go out in declared order, the start after the last; an immediate HAL failure ends the publication at once |
| `GattServer.Server.ServiceAddedCallback` | service/gatt_server.cpp:497-530 | the awaited service answer stores its handle and goes on, a bad one ends the publication; any other answer is a failed CHECK |
| `GattServer.Server.CharacteristicAddedCallback` | service/gatt_server.cpp:532-563 | the same for the awaited characteristic, checked against service handle and UUID |
| `GattServer.Server.DescriptorAddedCallback` | service/gatt_server.cpp:565-596 | the same for the awaited descriptor |
| `GattServer.Server.ServiceStartedCallback` | service/gatt_server.cpp:598-624 | the start answer commits on success and otherwise deletes the service and leaves the maps alone |
| `GattServer.Server.ConnectionCallback` | service/gatt_server.cpp:448-495 | connect and disconnect, under any address, leave both indexes sound and exactly as specified |
| `GattServer.Server.RemoveFromBucket` | service/gatt_server.cpp:468-478 | the loop takes out the first object with the id and no other |
| `GattServer.Server.GetConnection` | service/gatt_server.cpp:908-931 | a connection is returned exactly when it is known, of that device, and the request id is free |
| `GattServer.Server.RequestReadCallback` | service/gatt_server.cpp:634-687 | a read is recorded for a known handle |
| `GattServer.Server.RequestWriteCallback` | service/gatt_server.cpp:689-756 | a write is recorded only if it wants a response |
| `GattServer.Server.RequestExecWriteCallback` | service/gatt_server.cpp:758-791 | an execute write is recorded without handle |
| `GattServer.Server.FindPending` | service/gatt_server.cpp:330-343 | the search yields the last object of the bucket on which the request is pending, or nothing |
| `GattServer.Server.SendResponse` | service/gatt_server.cpp:298-367 | address syntax and size are checked first; the response goes to the last matching connection and the request leaves its table only if sent |
| `GattServer.Server.SendNotification` | service/gatt_server.cpp:369-446 | one shared pending object for exactly the connections it went out on; every HAL call carries the published handle, the confirm flag and the value of the call; nothing for a malformed or unknown address or an unknown characteristic |
| `GattServer.Server.IndicationSentCallback` | service/gatt_server.cpp:793-817 | the callback runs exactly when no other connection holds the shared object |
| `GattSystem.NextKeeps` | service/gatt_server.cpp:76-906 | every event of the whole server keeps the invariants of publication, connections and indications together |
| `GattSystem.RunKeeps` | service/gatt_server.cpp:76-906 | so does every run, whatever the interleaving of the three parts |
| `GattSystem.RunAgrees` | service/gatt_server.cpp:448-495 | in a run of the whole server with orderly disconnects the indexes agree |
| `GattSystem.TraceSafe` | service/gatt_server.cpp:76-906 | in every run that keeps to the HAL's contract no CHECK fails |
| `GattSystem.HandlesOnlyGrow` | service/gatt_server.cpp:819-834 | no event unpublishes a handle or gives it another identifier |
| `GattSystem.RunHandlesKnown` | service/gatt_server.cpp:634-791 | in no run is a request pending for a handle that is not published, execute writes aside |
| `GattSystem.RequestsAccounted` | service/gatt_server.cpp:298-367 | recorded = answered + dropped + still answerable in every run of the whole server |
| `GattSystem.WaitsForConfirmation` | service/gatt_server.cpp:369-446 | until an id is confirmed, and through disconnects and reconnects, its indication is not reported and no other notification is even tried on that id |
| `GattSystem.ReusedIdShut` | service/gatt_server.cpp:398-411 | a new connection with the id of a dropped one that never confirmed is found but not sent on |
| `GattSystem.RunReported` | service/gatt_server.cpp:369-446 | in every run of the whole server each notification is reported at most once, exactly when it went out and all its connections have confirmed, and rightly |
| `GattSystem.SendsWhatWasAsked` | service/gatt_server.cpp:369-438 | in the whole server every HAL call of a notification carries handle, confirm flag and value asked for, to a connection of that device |
| `GattSystem.CallsAreReports` | service/gatt_server.cpp:793-817 | the callbacks invoked in a run, counted with their results, are exactly those of the notifications reported in it |
| `GattSystem.Execute` | service/gatt_server.cpp:76-906 | any run on the object, with its shared connection and indication objects, ends in the specified state of all three parts with exactly the specified outputs, and no CHECK has failed |
| `GattSystem.Session` | service/gatt_server.cpp:76-906 | the same from the constructor; afterwards every pending request is for a published handle or an execute write, and the callbacks invoked are those of the reports |

## Left out

- Wide-band speech (BTM_WBS_INCLUDED) and SCO over HCI (BTM_SCO_HCI_INCLUDED) in the SCO machine: the default build without them is modelled.
- AT+CMER parsing: it appears only as an event that switches reporting on or off.
- The callheld indicator in the coherence theorem: AT+CHLD=2 changes the stored value on purpose without sending it.
- Indicators.RunCoherent: stated for indicator values below 256 and +CIND answers listing one number per indicator, the first six of one digit, because the stored fields are octets and the positions fixed; `SendCoherent` and `CindAligned` show both conditions are exact.
- The mask of AT+BIA is kept as the set of its one bits, bit numbers 1 to 20, not as a 32-bit word.
- The delegate calls for GATT requests, which only pass a recorded request on to the application, and the registry that creates servers.
- The width of the service instance number in the HAL structure, which is declared outside the repository: the HAL is taken to echo the identifier it was given.
- BTGATT_MAX_ATTR_LEN and BT_STATUS_FAIL come from HAL headers outside the repository; the values 600 and 1 are used.
- Closing an A2DP stream (which frees it), input streams, the split-A2DP and IPC builds, sample-rate and latency code.
- A2dpStream.Execute: the locked sections are atomic steps; memory effects of the unlocked read of the socket number in a write are not modelled.
- Indications sent by SetCharacteristicValue and the notification pipe of the old GATT server.
- LE client: scanning, connecting, MTU, advertising parameters and the client registry.
- Callbacks that re-enter an object while its lock is held: application callbacks are outputs.
- Logging, tracing, timers, threads and sockets as such.
