# ONU provisioning on ZTE OLTs: a model and its proofs

The service registers customer modems (ONUs) on optical line terminals (OLTs) over a Telnet command line, keeps
their configuration and their database rows in step, and watches them for alarms. This project models the parts
of it that hold state machines, byte-level scans or printer and parser pairs, and proves properties of them.

Code that changes things step by step is modelled by classes and loops; each method is tied to a specification
function, and the lemmas are about that function. Beside it the contract, or a lemma, says what the operation leaves in
terms of its inputs alone, with the constants written out. Code made of expressions is modelled by functions.

| file | what it models |
|---|---|
| `Telnet.dfy`, `TelnetLaws.dfy` | the Telnet scans (strip and respond) against a grammar of the stream (RFC 854, sections "TELNET COMMAND STRUCTURE" and "GENERAL CONSIDERATIONS"; RFC 855; section 2 of RFC 1073) |
| `Echo.dfy` | cleaning backspaces out of echoed output |
| `CliSession.dfy`, `CliInterleaving.dfy` | one command-line connection, first by itself, then shared by callers under a lock |
| `DriverPool.dfy` | the pool of OLT connections and a ledger of sockets |
| `AlarmStore.dfy`, `AlarmLaws.dfy` | alarm, ticket and user tables, the operations on them, and what each operation keeps |
| `AlarmPoll.dfy`, `AlarmDesk.dfy` | the edge-triggered poller against a level-triggered specification; the service as a class |
| `AlarmFlap.dfy` | closing a ticket, and the poll that sees the same reading |
| `AlarmRuns.dfy`, `RoundRobin.dfy` | whole runs with stale snapshots and interleaved ticket actions; how technicians take turns |
| `Registration.dfy`, `RegistrationLaws.dfy`, `RegistrationOutcomes.dfy`, `ListingChoice.dfy` | database rows and OLT registrations, updated in steps that fail one by one; what runs keep, what each operation leaves; the choice of an ID from the text that is read |
| `OnuCommands.dfy`, `OnuCommandLaws.dfy`, `OnuDriver.dfy` | the driver's commands and an interpreter for them; batching, the profile that is pushed and the stale-VLAN purge; the driver's methods |
| `LinePatterns.dfy`, `LineWords.dfy`, `PortListing.dfy`, `FlowListing.dfy`, `OnuConfigText.dfy`, `ConfigFields.dfy`, `LineFields.dfy`, `ConfigRoundTrip.dfy`, `ConfigReadBack.dfy`, `ModeReadBack.dfy` | the regular expressions of the parsers, the text the driver prints, and the round trips |
| `Text.dfy`, `Options.dfy` | lines, numerals, letter case; optional values |

Conventions. Rx power is in hundredths of a dBm. Serials in `Registration` are already in upper case. Every reading
of the clock is later than the one before. The MySQL advisory lock is a mutex. The OLT refuses to register an ID or
a serial that its port already has; removing an absent entry does nothing. What the network, the device and the
database may do at each step (an exchange answered, lost before or after the device acted, a write that fails, a
read that raises) is a parameter, and the statements are for all of its values.

## What is not so

In these places the code does less than one might expect. Each is stated exactly, mostly as an if-and-only-if.

- Stripping each network chunk by itself is right only when every chunk but the last ends between two Telnet tokens;
  a chunk that ends anywhere else is stripped wrongly before some continuation (`ChunkBoundary`). The strip drops a
  doubled IAC, and leaks the last byte of an unterminated subnegotiation (`StripUnterminated`).
- The responder loses its place after IAC SE and after two-byte commands. On streams without a stray 0xFF, every
  request is answered if and only if none is entered late, and what is answered are exactly the others
  (`AnswersAllIff`, `AnswersTheRest`, `LostRequest`).
- `configure terminal` is sent outside the `try`/`finally`: when its exchange fails after the line went out, the next
  caller's query meets configuration mode (`LostEntryLeavesConfigMode`, `ConfigureReturnsIff`).
- Cancellation is not an `Exception` in Python. A connection attempt cancelled while logging in leaves its socket open
  until the garbage collector finalizes the writer, and a close cancelled while it waits leaves a pool entry whose
  socket is closed. So does a transport that closes itself when its connection is lost. Opened minus closed equals the
  pool size throughout a run if and only if none of the three happens (`BalancedIffUndisturbed`, `OutOfBalance`);
  `Conservation` is the account that holds in every run.
- Assignment has no guard on the ticket's status, so a settled ticket can come alive again
  (`AssignKeepsConverseIff`), and closing it can leave another active Low-Rx alarm of the same ONU (`CloseClearsLowRxIff`,
  `CloseCanLeaveLowRx`). Closing a loss-of-signal ticket looks for `working` or `online` anywhere in the state, the
  poller compares whole strings, so the next poll may raise the alarm again (`LosCloseThenPollIff`, `LosCloseCanFlap`).
- A removal keeps a row without a registration when the device acted and the row was not deleted: the answer was lost
  and the removal not forced, the database failed, or a notification refers to the row (`RemoveKeepsInvIff`). The
  foreign key of `notifications` (app/models/notification.py:26-28) has neither a cascade nor an `ondelete`, so the
  service cannot remove an ONU whose customer the BSS flow notified, though the attempt takes its registration
  (`NotifiedOutlivesItsRegistration`, `NotifiedExample`). Deprovisioning several ONUs rolls back rows whose
  registrations are already gone (`DeprovisionKeepsInvIff`, `DeprovisionExample`).
- The BSS flow never takes over an orphaned registration (`BssNeverAdoptsOrphan`), and its fallback gives the GEM port
  no name (`FallbackDropsGemName`). With an empty profile name the batch prints a GEM port line that the separate call
  does not (`BatchIsTheThreeIff`).
- A purge cut between the two commands of a pair leaves a filter entry without a flow (`StaysTameIff`, `CutMakesOrphan`,
  `CutExample`). Purges select VLANs by their flows, so they miss that entry, and no complete run converges, until some
  run sends a flow of that very VLAN; a complete run with it as the target takes the entry up again (`OrphanLastsIff`,
  `OrphanAndCompleteRun`). The purge removes priority 0 only, though it selects VLANs of any priority (`ConvergesIff`).
- The parser takes `onu-vlan` anywhere in a line for bridge mode, a user name or a URL included (`PppoeReportedIff`,
  `PppoeReportedAsBridge`).
- The docstring of `authorize_onu` (app/olt_driver/zxan_driver.py:58-63) speaks of a serial-number binding step; the
  code sends none, and the model follows the code.

## Model

| member | source | states |
|---|---|---|
| `Telnet.StripIac` | app/olt_driver/ssh_client.py:68-93 | the index loop returns the strip of the whole buffer, branch by branch, including the inner subnegotiation scan |
| `Telnet.SkipSubnegotiation` | app/olt_driver/ssh_client.py:83-87 | the inner loop stops just after the first IAC SE, or at the last byte when there is none |
| `TelnetLaws.StripByBytes` | app/olt_driver/ssh_client.py:68-93 | what the strip makes of each kind of byte sequence, in numerals: data kept; 255 and 251 to 254 taken with an option; 255 250 up to the first 255 240; 255 with any other byte, itself included |
| `TelnetLaws.StripWholeTokens` | app/olt_driver/ssh_client.py:68-93 | whole tokens strip to exactly their data bytes in order, whatever bytes follow |
| `TelnetLaws.StripIsDataOf` | app/olt_driver/ssh_client.py:68-93 | a stream of whole tokens strips to exactly its data bytes |
| `TelnetLaws.StripUnterminated` | app/olt_driver/ssh_client.py:83-87 | an unterminated subnegotiation yields its last byte, unless that is IAC |
| `TelnetLaws.Decompose` | app/olt_driver/ssh_client.py:68-93 | every byte string is whole tokens and then nothing or an unfinished token: the grammar covers all inputs |
| `TelnetLaws.ChunkBoundary` | app/olt_driver/ssh_client.py:414 | stripping two chunks separately is right for every second chunk if and only if the first ends between tokens |
| `TelnetLaws.ChunkedRead` | app/olt_driver/ssh_client.py:395-423 | a reader that strips chunk by chunk sees the stripped stream when all chunks but the last end between tokens |
| `Telnet.RespondIac` | app/olt_driver/ssh_client.py:46-65 | the index loop returns the reply to the whole buffer |
| `TelnetLaws.FirstRound` | app/olt_driver/ssh_client.py:46-65 | any input at all is answered with window announcements, WONT and DONT only |
| `TelnetLaws.SecondRound` | app/olt_driver/ssh_client.py:46-65 | such answers, entered at any of three offsets, are answered with DONT NAWS only, at most one for each announcement |
| `TelnetLaws.ThirdRound` | app/olt_driver/ssh_client.py:46-65 | refusals are not answered |
| `TelnetLaws.NegotiationDiesOut` | app/olt_driver/ssh_client.py:46-65 | for every byte string the third round of replies is empty |
| `TelnetLaws.TwoRoundsAreNotEnough` | app/olt_driver/ssh_client.py:46-65 | three is the exact number of rounds |
| `TelnetLaws.RepliesCarryNoData` | app/olt_driver/ssh_client.py:46-93 | for every byte string the reply strips to nothing, even when option bytes are 0xFF |
| `TelnetLaws.AnswersTheRest` | app/olt_driver/ssh_client.py:46-65 | on streams without a stray 0xFF the reply is exactly the answers to the requests that are not entered late, in order; the answers are given in numerals: DONT to every WILL, WONT to every DO but NAWS, the window to DO NAWS |
| `TelnetLaws.AnswersAllIff` | app/olt_driver/ssh_client.py:46-65 | on such streams every DO and WILL is answered, once, in order and with nothing else, if and only if none is entered late |
| `TelnetLaws.AnswersEveryRequest` | app/olt_driver/ssh_client.py:46-65 | none is lost where only data follows a two-byte command or a subnegotiation with a payload, options of 0xFF included |
| `TelnetLaws.LostRequest` | app/olt_driver/ssh_client.py:46-65 | such a loss: a DO right after a subnegotiation gets no answer |
| `Echo.CleanTelnetOutput` | app/olt_driver/ssh_client.py:96-120 | the stack loop and the final split, filter and join give the erased text |
| `Echo.CleanHasNoBackspace` | app/olt_driver/ssh_client.py:96-120 | no backspace is left |
| `Echo.CleanIdempotent` | app/olt_driver/ssh_client.py:96-120 | cleaning twice is cleaning once |
| `Echo.CleanPrefixFirst` | app/olt_driver/ssh_client.py:96-120 | cleaning a first piece beforehand changes nothing |
| `Echo.WordErased` | app/olt_driver/ssh_client.py:96-120 | a word followed by as many backspaces as it is long leaves no trace anywhere |
| `Echo.CleanIsTheOnlyOne` | app/olt_driver/ssh_client.py:96-120 | three rules about plain text and backspaces determine the result on every text |
| `CliSession.OltClient.Exchange` | app/olt_driver/ssh_client.py:279-286 | what one exchange puts on the wire and does to the device's mode and to the connection |
| `CliSession.OltClient.ExecuteCommand` | app/olt_driver/ssh_client.py:288-325 | wire, mode, success and connection after a single command, for every outcome |
| `CliSession.OltClient.ExecuteConfigMode` | app/olt_driver/ssh_client.py:327-389 | wire, mode, success and connection after a configuration call: the batch up to its first failure, then `end` if entry was reached |
| `CliSession.OltClient.SendBatch` | app/olt_driver/ssh_client.py:354-382 | the protected loop sends commands up to and including the first that is not accepted |
| `CliSession.ConfigureByCases` | app/olt_driver/ssh_client.py:343-389 | a configuration call line by line for every fate of its exchanges: what is on the wire, and whether the connection survives |
| `CliInterleaving.StepKeepsInv` | app/olt_driver/ssh_client.py:288-389 | every event of every caller keeps the log equal to whole calls plus the holder's partial call |
| `CliInterleaving.WholeBlocks` | app/olt_driver/ssh_client.py:288-389 | in every interleaving the wire log is whole calls one after another plus what the lock holder has sent so far |
| `CliInterleaving.CallsAreRequests` | app/olt_driver/ssh_client.py:288-389 | in every interleaving each caller's calls, finished, under way and waiting, are its requests, in order: none lost, doubled or changed |
| `CliInterleaving.RecordIsTrue` | app/olt_driver/ssh_client.py:288-389 | the fates by which the calls are judged are the results of all exchanges of the run, in order |
| `CliInterleaving.ConnectedIff` | app/olt_driver/ssh_client.py:279-286 | the connection is up exactly while no write of the run has failed |
| `CliInterleaving.ExecWhenFree` | app/olt_driver/ssh_client.py:288-389 | when every finished call returned to exec mode, each line was received in the mode it would meet if its caller were alone |
| `CliInterleaving.ConfigureReturnsIff` | app/olt_driver/ssh_client.py:343-389 | a configuration call returns to exec mode if and only if its entry was never sent, or entry succeeded and `end` was sent |
| `CliInterleaving.PartsStayInside` | app/olt_driver/zxan_driver.py:304-309 | a batch of contexts, each opened, filled and left, and of global lines never leaves configuration mode early |
| `CliInterleaving.GlobalLinesStayInside` | app/olt_driver/zxan_driver.py:219-260 | nor does a batch of one global line: a bandwidth profile, a traffic table or a service port without an ONU |
| `CliInterleaving.AuthorizeStaysInside` | app/olt_driver/zxan_driver.py:67-85 | nor does the registration batch, with or without a description |
| `CliInterleaving.ZteConfigureReturnsIff` | app/olt_driver/ssh_client.py:343-389 | the same exact condition for every such batch on the ZTE command line |
| `CliInterleaving.SafeInterleaving` | app/olt_driver/ssh_client.py:288-389 | with entry and `end` exchanges that succeed the device is in exec mode whenever the lock is free, failing batches included |
| `CliInterleaving.ZteSafeInterleaving` | app/olt_driver/ssh_client.py:288-389 | the same on the ZTE command line |
| `CliInterleaving.LostEntryLeavesConfigMode` | app/olt_driver/ssh_client.py:347-348 | a lost entry reply makes the next caller's query arrive in configuration mode |
| `CliInterleaving.LockIsLetGo` | app/olt_driver/ssh_client.py:288-389 | the holder can always take a step, and every step brings the release nearer |
| `DriverPool.OltDriverPool.GetDriver` | app/olt_driver/driver_factory.py:23-36 | reuse of a live driver, replacement of a stale one, a failing or cancelled replacement, with the socket ledger; a driver handed out is connected unless it was just created and lost the connection again |
| `DriverPool.GetReuses` | app/olt_driver/driver_factory.py:23-29 | a connected driver is handed out and nothing changes |
| `DriverPool.GetReplaces` | app/olt_driver/driver_factory.py:23-60 | pool, open sockets and counts after one attempt to replace a driver that is not connected, for every way it may end |
| `DriverPool.OltDriverPool.CreateDriver` | app/olt_driver/driver_factory.py:38-60 | a connection attempt opens one socket and closes it again unless it connects or is cancelled |
| `DriverPool.OltDriverPool.RemoveDriver` | app/olt_driver/driver_factory.py:66-72 | the socket is closed and the driver leaves the pool, unless the close is cancelled: then the entry stays |
| `DriverPool.OltDriverPool.CloseAllDrivers` | app/olt_driver/driver_factory.py:74-78 | every entry is closed in turn up to a cancelled one; a complete closing empties the pool and leaves only abandoned sockets open |
| `DriverPool.CloseEachEffect` | app/olt_driver/driver_factory.py:74-78 | each entry after a closing cancelled at any point: gone before it, closed but kept at it, untouched after it |
| `DriverPool.RunIsValid` | app/olt_driver/driver_factory.py:23-78 | over every run, cancellations included, pooled drivers have distinct sockets, connected ones have open sockets, and the open sockets are pooled or abandoned |
| `DriverPool.Conservation` | app/olt_driver/driver_factory.py:23-78 | opened minus closed equals the pool size, less the entries that are closed already, plus the abandoned sockets |
| `DriverPool.ConservedOverRuns` | app/olt_driver/driver_factory.py:23-78 | so it is after every run |
| `DriverPool.BalancedIffUndisturbed` | app/olt_driver/driver_factory.py:23-78 | opened minus closed equals the pool size throughout a run if and only if no login and no close of the run is cancelled and no transport of a pooled connection closes itself |
| `DriverPool.AbandonedStays` | app/olt_driver/ssh_client.py:156-195 | the socket of a cancelled login is closed by no operation of the pool |
| `DriverPool.CloseAllLeavesAbandoned` | app/olt_driver/driver_factory.py:74-78 | after closing all only abandoned sockets are open |
| `DriverPool.CloseAllAndCollect` | app/olt_driver/driver_factory.py:74-78 | and after the next collection none at all |
| `DriverPool.OutOfBalance` | app/olt_driver/ssh_client.py:156-254 | three runs out of balance: a cancelled login, a cancelled release and a transport that closed itself |
| `AlarmLaws.CreateIsCoupled` | app/services/alarm_service.py:76-139 | creation adds one alarm with exactly one live ticket and keeps all couplings |
| `AlarmLaws.CreateKeepsOneActive` | app/services/alarm_service.py:63-74 | creating for a key without an active alarm keeps at most one active alarm per key |
| `AlarmLaws.EvolvingIsSound` | app/services/alarm_service.py:157-166 | any change that only resolves alarms and settles tickets with their alarms keeps all invariants |
| `AlarmLaws.DeletedOnuIsQuiet` | app/models/alarm.py:58 | deleting an ONU unlinks all its alarms and none of another ONU |
| `AlarmLaws.AssignKeepsConverseIff` | app/services/alarm_service.py:255-283 | assignment keeps resolved alarms with settled tickets if and only if it is refused or the ticket is live |
| `AlarmLaws.CloseClearsLowRxIff` | app/api/v1/technician.py:282-324 | an accepted Low-Rx closing leaves the ONU free of active Low-Rx alarms if and only if the ticket's alarm was active or none was |
| `AlarmLaws.CloseClearsLowRx` | app/api/v1/technician.py:282-324 | with assignment restricted to live tickets the ONU is always free of active Low-Rx alarms afterwards |
| `AlarmLaws.CloseCanLeaveLowRx` | app/api/v1/technician.py:282-324 | a reachable run in which it is not |
| `AlarmLaws.LowRxCloseNeedsGoodReading` | app/api/v1/technician.py:253-303 | a Low-Rx ticket is closed if and only if it is live, the query answers, and the reading is above the alarm threshold |
| `AlarmFlap.LowRxCloseThenPoll` | app/services/alarm_poller.py:133-143 | after an accepted Low-Rx closing, the poll that sees the same power leaves no Low-Rx alarm active for the ONU |
| `AlarmFlap.LowRxCloseThenSteer` | app/services/alarm_poller.py:133-143 | and it raises none, whatever its snapshot |
| `AlarmFlap.LosCloseThenPollIff` | app/services/alarm_poller.py:122-131 | after an accepted loss-of-signal closing, the poll that sees the same state has the ONU alarmed if and only if that state is neither word exactly |
| `AlarmFlap.LosCloseCanFlap` | app/api/v1/technician.py:271-280 | such a run: the ticket closed, no alarm left, and the next poll raises it |
| `AlarmPoll.SteerIsLocal` | app/services/alarm_poller.py:122-143 | raising or clearing one alarm touches no other ONU and no other type |
| `AlarmPoll.SteerIsSound` | app/services/alarm_poller.py:122-143 | doing so with a stale snapshot keeps all invariants |
| `AlarmPoll.SteerReachesLevel` | app/services/alarm_poller.py:122-143 | with a snapshot that fits the alarm is active afterwards exactly when it is wanted |
| `AlarmDesk.Desk.constructor` | app/models/alarm.py:1-92 | empty tables are sound |
| `AlarmDesk.Desk.GetActiveAlarm` | app/services/alarm_service.py:41-51 | with at most one active alarm per key the lookup finds it, and finds nothing only when there is none |
| `AlarmDesk.Desk.PickNextTechnician` | app/services/alarm_service.py:142-154 | the loop over users finds an eligible one with the oldest ticket, users without any first, and none only when nobody is eligible |
| `AlarmDesk.Desk.CreateAlarmAndTicket` | app/services/alarm_service.py:54-139 | the new alarm and ticket field by field, assigned to the picked user's technician at the time of creation, or open exactly when nobody is eligible; the user's timestamp; nothing else |
| `AlarmDesk.Desk.ResolveAlarmRow` | app/services/alarm_service.py:157-166 | the alarm is resolved and its live ticket settled at the same time, and no other row changes |
| `AlarmDesk.Desk.Assign` | app/services/alarm_service.py:255-283 | reply, and the one ticket changed, field by field: technician, status and time; error cases included |
| `AlarmDesk.Desk.Resolve` | app/services/alarm_service.py:312-339 | reply, the one ticket settled and its active alarm resolved with the notes; error cases included |
| `AlarmDesk.Desk.Acknowledge` | app/api/v1/technician.py:180-220 | each reply exactly when it is given, and the one ticket acknowledged |
| `AlarmDesk.Desk.Close` | app/api/v1/technician.py:223-334 | each reply exactly when it is given, recovery check included; the one ticket closed and its active alarm resolved |
| `AlarmDesk.Desk.PreloadActive` | app/services/alarm_poller.py:56-67 | the dictionary holds exactly the active alarms of the given ONUs |
| `AlarmDesk.Desk.GroupByPort` | app/services/alarm_poller.py:69-72 | every port once, with exactly its ONUs in table order |
| `AlarmDesk.Desk.Observe` | app/services/alarm_poller.py:98-121 | state and reading taken from the bulk answers, or from the detail query when the port's state query gave nothing |
| `AlarmDesk.Desk.VisitOnu` | app/services/alarm_poller.py:98-143 | one ONU reaches the level its reading calls for, no other ONU is touched, and what is raised records the reading |
| `AlarmDesk.Desk.PollPort` | app/services/alarm_poller.py:78-143 | every ONU of the port reaches its level, and nothing outside it changes |
| `AlarmDesk.Desk.PollOlt` | app/services/alarm_poller.py:48-75 | every ONU is visited exactly once; where bulk states came it is judged by bulk state and power; where none came by the detail query, its power first; where that raised it is untouched. LOS is active afterwards if and only if the state is non-empty and neither working nor online, Low-Rx if and only if the power is at or below -26.00 dBm; every alarm raised records its ONU, severity and power |
| `AlarmRuns.StepKeepsInv` | app/services/alarm_poller.py:30-179 | every event of a run, lock, view, poll or ticket action, keeps the invariants; a poll may start from any view its worker's transaction took, however old |
| `AlarmRuns.AlwaysSound` | app/services/alarm_poller.py:56-143 | in every reachable state there is at most one active alarm per ONU and type, one ticket per alarm, settled tickets have resolved alarms, and exactly resolved alarms carry a resolution time |
| `AlarmRuns.NeverReactivated` | app/services/alarm_service.py:157-166 | over every run no alarm is lost and no resolved alarm is active again |
| `AlarmRuns.ActiveHasLiveTicket` | app/services/alarm_service.py:62-120 | in every reachable state an active alarm has a live ticket |
| `AlarmRuns.SettledTogether` | app/services/alarm_service.py:329-337 | over every run that assigns only live tickets, tickets are settled exactly when their alarms are resolved |
| `AlarmRuns.LevelReached` | app/services/alarm_poller.py:56-143 | over every run an alarm that no user's action touches is active if and only if the last decision about it wanted it, views grown old included |
| `AlarmRuns.TwoPollersDuplicate` | app/services/alarm_poller.py:146-179 | without the lock two polls with old snapshots raise the same alarm twice |
| `RoundRobin.WindowHasNoRepeats` | app/services/alarm_service.py:142-154 | at most n consecutive assignments among n technicians repeat nobody |
| `RoundRobin.FullRound` | app/services/alarm_service.py:142-154 | any n consecutive assignments pick each of n technicians exactly once, from any timestamps |
| `RoundRobin.WindowShare` | app/services/alarm_service.py:142-154 | over any window everybody gets one per complete round or one more |
| `RoundRobin.CreationsTakeTurns` | app/services/alarm_service.py:97-125 | successive ticket creations take turns by oldest timestamp |
| `RoundRobin.TicketOfTurn` | app/services/alarm_service.py:97-125 | the ticket of each creation is assigned to the technician of the user whose turn it was, and stays so |
| `RoundRobin.LoadIsCount` | app/services/alarm_service.py:97-125 | the tickets in the table assigned to a technician are as many as the turns of the technician's user |
| `RoundRobin.LoadsDifferByAtMostOne` | app/services/alarm_service.py:97-125 | over any window of creations the tickets assigned to two technicians differ in number by at most one |
| `RoundRobin.EachOnceARound` | app/services/alarm_service.py:97-125 | of as many consecutive tickets as technicians exactly one is assigned to each |
| `Registration.LeastFreeIsLeast` | app/olt_driver/response_parser.py:84-87 | the least ID of 1..128 not used, and none exactly when all 128 are |
| `Registration.Provisioner.AuthorizeEntry` | app/olt_driver/zxan_driver.py:51-100 | the port's registrations after the exchange, answered or lost before or after the device acted |
| `Registration.Provisioner.SaveRow` | app/services/onu_service.py:229-250 | the rows after the insert, its unique constraints and a rollback |
| `Registration.Provisioner.Provision` | app/services/onu_service.py:70-250 | both stores and the reply after duplicate checks, choice of ID, authorization and save, for every outcome of each |
| `Registration.Provisioner.ProvisionBss` | app/services/provision_service.py:73-303 | the same for the BSS flow, with the notification that then refers to the row |
| `Registration.Provisioner.Remove` | app/services/onu_service.py:495-565 | both stores after a removal, forced or not, with a delete that the foreign key or the database may refuse |
| `Registration.Provisioner.DeprovisionAll` | app/services/provision_service.py:341-355 | both stores after a customer's ONUs are removed one by one, with the rollback when an exchange, a delete or the commit fails |
| `RegistrationLaws.ProvisionKeepsInv` | app/services/onu_service.py:93-250 | provisioning keeps every row registered and all locations distinct, and never meets a unique constraint |
| `RegistrationLaws.BssProvisionKeepsInv` | app/services/provision_service.py:135-274 | so does the BSS flow, whatever the read showed |
| `RegistrationLaws.OrphanKeepsItsId` | app/services/onu_service.py:101-184 | a registered serial without a row gets its old ID back, and no registration changes |
| `RegistrationLaws.BssNeverAdoptsOrphan` | app/services/provision_service.py:135-161 | the BSS flow fails for such a serial and changes nothing |
| `RegistrationLaws.FreshIdIsFree` | app/services/onu_service.py:112-168 | on every fresh-ID path the ID is in 1..128 and free in the database |
| `RegistrationLaws.NoIdsMeansFull` | app/services/onu_service.py:112-168 | no ID is left only when the store consulted is full |
| `RegistrationLaws.RemoveKeepsInvIff` | app/services/onu_service.py:495-565 | a removal keeps the invariant if and only if the device never acted, or it was answered or forced and the delete goes through, which no notification may prevent |
| `RegistrationLaws.NotifiedOutlivesItsRegistration` | app/models/notification.py:26-28 | an ONU whose customer was notified loses its registration at every removal the device acts on, answered or not, and keeps its row |
| `RegistrationLaws.NotifiedExample` | app/notifications/notify.py:29-75 | such an input: the first ONU of an empty port |
| `RegistrationLaws.DeprovisionKeepsInvIff` | app/services/provision_service.py:341-355 | deprovisioning keeps it if and only if all exchanges, deletes and the commit go through, or the device never acted on the first ONU |
| `RegistrationLaws.DeprovisionExample` | app/services/provision_service.py:341-355 | such a failing input: two ONUs of a customer, and an exchange lost before the second removal |
| `RegistrationLaws.RemovalsAdmissibleIff` | app/services/onu_service.py:495-565 | the condition that runs put on removals is exact for each of them |
| `RegistrationLaws.RunsStayConsistent` | app/models/onu.py:30-33 | after every operation of every admissible run, provisioning, removal and deprovisioning, each row is registered, locations and serials are distinct, and no unique constraint has fired |
| `RegistrationLaws.StartsConsistent` | app/models/onu.py:30-33 | an empty database beside any OLT is a start for such runs |
| `RegistrationOutcomes.ProvisionSaves` | app/services/onu_service.py:80-250 | after Ok(k) exactly one row is new, at ID k, and unless the read showed the serial exactly one registration, of that ID, serial and type; after any other reply no row is |
| `RegistrationOutcomes.ProvisionedIsListed` | app/services/onu_service.py:93-250 | and the ONU is registered under the row's ID |
| `RegistrationOutcomes.ProvisionTakesLeastFree` | app/services/onu_service.py:112-184 | a new serial with a truthful read gets the least ID free on the port; what is left when the exchange is lost or the save fails |
| `RegistrationOutcomes.ProvisionWithoutRead` | app/services/onu_service.py:152-168 | when the read raises it gets the least ID free in the database, or the device refuses it and nothing changes |
| `RegistrationOutcomes.ProvisionAfterCollision` | app/services/onu_service.py:118-149 | a stale read whose free ID has a row decides as a read that raises |
| `RegistrationOutcomes.BssSaves` | app/services/provision_service.py:73-303 | the same account of every reply for the BSS flow, duplicate customers and the notification included |
| `RegistrationOutcomes.BssTakesLeastFree` | app/services/provision_service.py:135-161 | it gets the least ID the listing leaves free, or 1 when the read raises, or the device refuses it and nothing changes |
| `RegistrationOutcomes.RemoveEffect` | app/services/onu_service.py:495-565 | when a removal succeeds, and which rows and registrations it takes, whatever happens |
| `RegistrationOutcomes.DeprovisionEffect` | app/services/provision_service.py:341-355 | deprovisioning succeeds exactly when every exchange is answered and every delete and the commit go through; then it takes exactly the customer's rows and registrations, and otherwise no row |
| `ListingChoice.ChooseIdFromText` | app/services/onu_service.py:93-168 | the ID chosen from the text that is read: the serial's own, the next free one, or the database's |
| `ListingChoice.TextDecidesAsListing` | app/services/onu_service.py:93-168 | a printed port configuration decides exactly as the registrations it lists |
| `ListingChoice.OrphanIsReused` | app/services/onu_service.py:101-111 | a serial that the text lists and the database has lost gets its old ID |
| `OnuDriver.ZxanDriver.ConfigureTcont` | app/olt_driver/zxan_driver.py:300-312 | the session of the two T-CONT commands; on success the T-CONT has that name and profile and its gap mode, and nothing else changes on any ONU |
| `OnuDriver.ZxanDriver.ConfigureGemport` | app/olt_driver/zxan_driver.py:314-326 | the same for the GEM port; an empty name is left out as none is |
| `OnuDriver.ZxanDriver.CreateServicePort` | app/olt_driver/zxan_driver.py:112-132 | the same for the service port, with an outer VLAN only when it is set and different |
| `OnuDriver.ZxanDriver.ConfigureTcontGemportServiceport` | app/olt_driver/zxan_driver.py:328-371 | the batched session; on success all of these together, with the GEM port named |
| `OnuDriver.ZxanDriver.GetStaleFlowVlans` | app/olt_driver/zxan_driver.py:373-384 | the matches found from left to right in the text, other than the target, all of them and no others, and none when the read raises |
| `OnuDriver.ZxanDriver.ConfigureOmci` | app/olt_driver/zxan_driver.py:386-474 | purge of what is stale, its failure ignored, then the full push; on success the settings grow by exactly those of the model, C320 or not, management server and credentials are those supplied, the tables hold the target, nothing else changes; and both tables are exact after a truthful read and a complete purge |
| `OnuDriver.ZxanDriver.BuildPurge` | app/olt_driver/zxan_driver.py:406-416 | the loop gives one pair of removals for each stale VLAN |
| `OnuDriver.ZxanDriver.BuildPush` | app/olt_driver/zxan_driver.py:423-461 | the list grown in steps is the full profile, with PPPoE only when both credentials are non-empty |
| `OnuCommandLaws.SplitSession` | app/olt_driver/zxan_driver.py:328-371 | one session for two groups of settings means the same as two sessions, the partial configuration after a refusal included |
| `OnuCommandLaws.BatchIsTheThreeIff` | app/olt_driver/zxan_driver.py:319-356 | the batch holds the commands of the three sessions if and only if the profile name is not empty |
| `OnuCommandLaws.BatchMeansSeparate` | app/olt_driver/zxan_driver.py:328-371 | for a profile with a name the batched session means the same as the three separate ones, refusals included |
| `OnuCommandLaws.BatchEffect` | app/olt_driver/zxan_driver.py:350-362 | the ONU's configuration after the batch, field by field |
| `OnuCommandLaws.FallbackDropsGemName` | app/services/provision_service.py:163-182 | the fallback of the BSS flow gives the batch's configuration but for the GEM port's name |
| `FlowListing.FlowsByLines` | app/olt_driver/zxan_driver.py:378-382 | searching any text is searching its lines one after another: no match crosses a line |
| `FlowListing.FlowsAreRead` | app/olt_driver/zxan_driver.py:378-382 | a text that shows flow 1 on lines of any indentation, between lines of any other kind, gives exactly its VLANs in order |
| `OnuCommandLaws.ShownIsListed` | app/olt_driver/zxan_driver.py:373-384 | so a text that shows the ONU's flows lists their VLANs truthfully |
| `OnuCommandLaws.PushProfile` | app/olt_driver/zxan_driver.py:423-461 | what a complete push configures, field by field: VLAN tables, credentials when there are two, management server, and the settings of the model |
| `OnuCommandLaws.PurgeEffect` | app/olt_driver/zxan_driver.py:406-416 | the purge removes exactly the priority-0 entries of stale VLANs from both tables |
| `OnuCommandLaws.PurgeTouchesVlans` | app/olt_driver/zxan_driver.py:406-421 | a purge, cut or not, changes nothing but the VLAN tables and adds to neither |
| `OnuCommandLaws.OmciRun` | app/olt_driver/zxan_driver.py:406-461 | a run that succeeds on a truthful listing leaves exactly the target and what the purge cannot reach, and touches no other ONU |
| `OnuCommandLaws.ConvergesIff` | app/olt_driver/zxan_driver.py:406-461 | both tables hold just the target VLAN if and only if flows had priority 0 and every other filter entry had a flow's VLAN |
| `OnuCommandLaws.TameConverges` | app/olt_driver/zxan_driver.py:406-461 | from a tame configuration it converges, stays tame, and a repeat purges nothing |
| `OnuCommandLaws.PurgeCut` | app/olt_driver/zxan_driver.py:406-421 | both tables after a purge cut at any command |
| `OnuCommandLaws.StaysTameIff` | app/olt_driver/zxan_driver.py:406-421 | a run cut short anywhere stays tame if and only if its purge was not cut inside a pair |
| `OnuCommandLaws.CutMakesOrphan` | app/olt_driver/zxan_driver.py:406-421 | a run cut inside the pair of a VLAN leaves that VLAN's filter entry without a flow |
| `OnuCommandLaws.CutExample` | app/olt_driver/zxan_driver.py:406-421 | such a run: VLAN 5 configured, target 6, cut after the first command |
| `OnuCommandLaws.OrphanLastsIff` | app/olt_driver/zxan_driver.py:373-421 | over every history of runs, cut or complete, such an entry stays unreachable throughout if and only if no run sends a flow of its VLAN |
| `OnuCommandLaws.OrphanAndCompleteRun` | app/olt_driver/zxan_driver.py:373-461 | meanwhile no complete run converges; one with that VLAN as its target does, where nothing else is out of order |
| `OnuCommandLaws.ConvergesAfterHistory` | app/olt_driver/zxan_driver.py:373-461 | after any such history, failures included, one complete run reaches the target in both tables |
| `LinePatterns.Match` | app/services/onu_service.py:639-655 | every piece captured fits its piece of the expression |
| `LinePatterns.MatchIsForced` | app/services/onu_service.py:639-655 | greedy matching that never goes back finds a match whenever the expression allows one, with the same pieces as every other and the longest last one |
| `LinePatterns.MatchIsDerived` | app/services/onu_service.py:639-655 | what it finds the expression allows |
| `LineWords.MatchFirstByWords` | app/services/onu_service.py:639-655 | anchored alternatives give on a line what they give on its words: spacing never matters |
| `LineWords.SearchByWords` | app/olt_driver/response_parser.py:76-99 | searching a line gives what searching its words gives |
| `LineWords.ContainsByWords` | app/services/onu_service.py:695-697 | a word occurs in a line if and only if it occurs in one of its words |
| `Text.CaseLaws` | app/olt_driver/response_parser.py:97 | lower case has no capitals and upper case no small letters, and nothing but case changes |
| `PortListing.ParseNextOnuId` | app/olt_driver/response_parser.py:75-87 | the loops return the least free ID of those the lines register |
| `PortListing.ParseOnuIdBySerial` | app/olt_driver/response_parser.py:89-99 | the loop returns the ID on the first line with the serial in any case |
| `PortListing.IdsAreRead` | app/olt_driver/response_parser.py:75-83 | a printed listing, with lines of any other kind between, gives exactly the registered IDs |
| `PortListing.SerialIsRead` | app/olt_driver/response_parser.py:89-99 | the serial search on it gives what the registrations give |
| `PortListing.PortRoundTrip` | app/olt_driver/zxan_driver.py:67-71 | a port configuration printed and read back gives the next ID and the serial's ID of the registrations themselves |
| `PortListing.RegisteredIdIsFound` | app/olt_driver/response_parser.py:89-99 | ID i is found exactly for the serial registered under it, and nothing exactly when it is not registered |
| `ConfigFields.ParseInterfaceFields` | app/services/onu_service.py:630-659 | the loop gives for each field what the last matching line gives |
| `ConfigFields.ParsePonOnuMngFields` | app/services/onu_service.py:662-705 | the same for flow, filter, PPPoE and the lines copied whole, all of them or the last, and the mode |
| `LineFields.TcontWords` | app/services/onu_service.py:639-643 | which word becomes which field of a T-CONT, for any values |
| `LineFields.NamedGemportWords` | app/services/onu_service.py:646-650 | the same for a named GEM port |
| `LineFields.PlainGemportWords` | app/services/onu_service.py:646-650 | and for one without a name, whose name is empty |
| `LineFields.ServicePortWords` | app/services/onu_service.py:651-656 | the same for a service port: ID, virtual port, user VLAN, VLAN |
| `LineFields.PppoeWords` | app/services/onu_service.py:668-671 | the same for credentials |
| `LineFields.FlowWords` | app/services/onu_service.py:672-675 | the same for a flow |
| `LineFields.FilterWords` | app/services/onu_service.py:684-686 | the same for a VLAN filter of either kind |
| `LineFields.RegistrationWords` | app/olt_driver/response_parser.py:75-99 | the same for a registration, keywords in any case |
| `LineFields.LastIsLast` | app/services/onu_service.py:630-705 | a field is what the last line that gives one gives |
| `LineFields.EveryInOrder` | app/services/onu_service.py:691-694 | a list holds what each line gives, in order; the three rules determine it |
| `LineFields.FirstSerialCounts` | app/olt_driver/response_parser.py:89-99 | an ID is that of the first line that registers the serial, in any case |
| `LineFields.ModeIff` | app/services/onu_service.py:695-704 | bridge mode exactly when some line contains `onu-vlan`, PPPoE exactly when none does and some line gives credentials |
| `LineFields.NameIsRead` | app/services/onu_service.py:636-638 | the name is the text after the word and the blanks behind it |
| `LineFields.GapIsRead` | app/services/onu_service.py:644-645 | the gap mode is the text after the last `gap ` |
| `LineFields.PhraseIff` | app/services/onu_service.py:636-677 | which lines give a name, a gap mode, a switchport mode and a flow mode |
| `ConfigRoundTrip.TcontLine` | app/services/onu_service.py:639-643 | a shown command's line is read as a T-CONT if and only if it is one, with its ID, name and profile |
| `ConfigRoundTrip.GemportLine` | app/services/onu_service.py:646-650 | the same for GEM ports, named or not |
| `ConfigRoundTrip.ServicePortLine` | app/services/onu_service.py:651-656 | the same for service ports |
| `ConfigRoundTrip.PppoeLine` | app/services/onu_service.py:668-671 | the same for PPPoE credentials, searched anywhere in the line |
| `ConfigRoundTrip.FlowLine` | app/services/onu_service.py:672-675 | the same for flows |
| `ConfigRoundTrip.FilterLine` | app/services/onu_service.py:684-686 | the same for VLAN filters |
| `ConfigReadBack.PrintedShows` | app/olt_driver/zxan_driver.py:350-362 | commands printed one to a line, with any indentation, give a text that shows them |
| `ConfigReadBack.InterfaceReadBack` | app/services/onu_service.py:630-659 | for every list of commands the fields read are those of the last command of each kind |
| `ConfigReadBack.BatchReadBack` | app/olt_driver/zxan_driver.py:350-362 | what the batched session configured is read back, numbers included |
| `ConfigReadBack.MngReadBack` | app/services/onu_service.py:662-705 | for every list of commands flow, filter and PPPoE are those of the last command of each kind |
| `ConfigReadBack.PushReadBack` | app/olt_driver/zxan_driver.py:423-461 | what the full push configured is read back: VLAN twice, and the credentials exactly when they were sent |
| `ConfigReadBack.CopiesReadBack` | app/services/onu_service.py:676-705 | the lines copied whole are those of the commands some word of which contains the phrase, keyword or value: of the last one, or for `security-mgmt` and `tr069-mgmt` of all in order |
| `ModeReadBack.BridgeIff` | app/services/onu_service.py:695-704 | bridge mode is reported if and only if some value supplied contains `onu-vlan` |
| `ModeReadBack.PppoeReportedIff` | app/services/onu_service.py:695-704 | an ONU with PPPoE credentials is reported in PPPoE mode if none of its five values contains `onu-vlan`, and as a bridge otherwise |
| `ModeReadBack.PppoeReportedAsBridge` | app/services/onu_service.py:695-704 | such an input, with its text |

## Left out

- Sockets, timeouts, the prompt expression, login and privileged mode: an exchange succeeds, fails or raises.
- Late answers after a timeout: the next exchange reads its own answer only.
- Echo stripping and the error expressions of the CLI: whether a command is accepted is a parameter.
- Tables are values keyed by row number: identity and lazy loading of ORM objects, aliasing between them, and the
  transaction of a poll that is rolled back half way are not modelled; `ticket.alarm` is always loaded and never null.
- Polling an ONU whose row was deleted in the meantime: the foreign-key error that ends such a poll is not modelled.
- The ONU name, and the phrases of two words (`gap mode`, `switchport mode`, `flow mode`), are read from a line but not
  through a whole printed configuration: what they give depends on the blanks inside a line.
- LoadsDifferByAtMostOne: for users linked to distinct technicians. `users.technician_id` has no unique constraint, and
  two users of one technician have two turns a round.
- NoStrayIac: where 0xFF stands as an option or second byte of a token entered late, or in a payload, the responder
  may take it for a command, and its replies to such streams are bounded only by the three rounds.
- Sending notifications: whether one was written is a parameter, and nothing deletes it.
- Two provisioning requests at the same time, and rows added by hand: runs are sequences of whole operations.
- The MySQL lock is a mutex; connection pooling that could release it from another session is not modelled.
- Real timestamps and their precision: a logical clock that never stands still.
- IsSpace: knows the six ASCII whitespace characters only, and digits and letter case are ASCII too; Python's
  classes also cover the information separators and Unicode.
- Showable: printed values are single words without whitespace; others do not survive the expressions.
- `no` lines: no running configuration shows one, though the flow expression would match `no flow` as well.
- Descriptions, service states, WiFi, ACS calls, the second driver in `titan_driver.py` and the other
  parsers: the same shapes again, or calls into code outside the repository.
- Service-port numbers and `apply_service_to_onu`: numbers repeat after a deletion, and there is no invariant to prove.
