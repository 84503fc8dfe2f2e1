# Verified model of the mesh, command, flight-logging and landing components

This project models the stateful logic of a system that carries drone telemetry, MAVLink commands and TAK traffic,
and proves what its components promise over whole runs. Each component has a specification in functions and state
machines, and the classes and loops of the program are shown to compute exactly that specification.

| component | files |
|---|---|
| Router with a bounded dedupe cache, and a network of routers that floods messages | `Router.dfy`, `Flood.dfy`, `FloodLaws.dfy` |
| Link-health monitor with hysteresis, and the arm guard that acts on its reports | `LinkHealth.dfy`, `ArmGuard.dfy` |
| Supervised commands: stage, confirm, interlock, send, acknowledge, retry | `Commands.dfy`, `CommandPath.dfy`, `CommandLedger.dfy`, `CommandSafety.dfy`, `CommandAcks.dfy`, `CommandWaits.dfy`, `CommandProgress.dfy`, `CommandOutcome.dfy`, `CommandOverlap.dfy`, `CommandService.dfy` |
| Compact binary codec | `Utf8.dfy`, `Compact.dfy`, `CompactCodec.dfy`, `CompactLaws.dfy`, `CompactWire.dfy` |
| Brace expansion and glob matching | `Braces.dfy`, `BraceLaws.dfy`, `BraceTrees.dfy`, `Globs.dfy` |
| LANDING_TARGET pipeline, heartbeat gate and track counters | `LandingTarget.dfy`, `LandingLaws.dfy`, `LandingService.dfy`, `Tracks.dfy` |
| Inference tasks, offline queue and rate gate | `OfflineQueue.dfy`, `OfflineLaws.dfy`, `OfflineProgress.dfy`, `OfflineService.dfy`, `RateGate.dfy` |
| Flight logger, JSON lines and crash recovery | `Json.dfy`, `Dataset.dfy`, `CrashRecovery.dfy`, `FlightLog.dfy` |
| Refresh coalescing of the preview plugin | `Refresh.dfy` |
| Shared helpers | `Options.dfy`, `Sequences.dfy`, `Rounding.dfy` |

Concurrency is modelled by interleaving: statement by statement for the command threads and the reader thread, between
awaits for the asynchronous components, frame by frame for the network. The world outside (clocks, links, detectors,
the connection factory, outcomes of foreign calls) appears as inputs or as events in any order. Numbers are unbounded
integers and reals; where the wire has a width, the range check or the wrap-around is written out.

Results that differ from what one might expect of the code:

- Ageing can make the raw link state less severe, exactly for frames with critical link quality when there is room
  between the age limits (`LinkHealth.AgeingHardensExactly`, `LinkHealth.AgeingCanSoften`).
- The latch of the arm guard follows the output only if the clamp lies below the threshold (`ArmGuard.LatchIsOutputIff`).
- A chat frame cut inside its text is not rejected: it decodes to the part of the text that arrived
  (`CompactLaws.ChatCutInText`).
- Nothing keeps two commands from executing at once, and then the drain of one can discard the ACK of the other
  (`CommandOverlap.OverlapDiscards`); one at a time, no ACK is lost (`CommandAcks.NoAckLost`).
- The generated path expression accepts one final newline that the single-level matcher does not
  (`Globs.MatchersAgreeUpToNewline`).
- The per-reason suppression counts do not explain the suppressions of a disabled feature
  (`LandingLaws.ReasonsSumExactly`).
- Spacing requests before they queue for a permit does not space the requests (`RateGate.RateIsBoundedExactly`).
- A refresh request made after a discovery began is lost when that one raises, until another request comes
  (`Refresh.RaisingLosesExactly`, `Refresh.NextRequestRescues`); the queued flag tells only for the first error
  (`Refresh.TheFlagCanBeStale`). A source whose write failed is not written again (`Refresh.FileIsStaleExactly`,
  `Refresh.AFailedWriteSticks`).
- An offline item whose replay ends in an unforeseen error is neither queued nor counted as dropped
  (`OfflineLaws.LostExactly`).

## Model

| member | source | states |
|---|---|---|
| `Router.Router.MarkSeen` | packages/meshsa/src/meshsa/router.py:68-75 | An id is reported new exactly when the cache does not hold it; the cache afterwards is the old one with the id appended and the oldest ids evicted down to the size |
| `Router.Router.Publish` | packages/meshsa/src/meshsa/router.py:77-81 | Publishing marks the id and hands the envelope to every transport in order, counting each |
| `Router.Router.Receive` | packages/meshsa/src/meshsa/router.py:89-115 | One turn of the pump: undecodable and incompatible frames are only counted, a repeated id stops after the receive count, a new one is delivered and forwarded on every transport but its source |
| `Router.CacheIsWindow` | packages/meshsa/src/meshsa/router.py:68-115 | After any sequence of publishes and receptions the cache is the last `size` accepted ids in order, where an id is accepted iff it is not among the last `size` accepted before it |
| `Router.RepeatsAreFarApart` | packages/meshsa/src/meshsa/router.py:68-75 | An id is accepted again only after at least `size` other acceptances |
| `Router.CountersBalance` | packages/meshsa/src/meshsa/router.py:89-115 | Frames read are the received, incompatible and undecodable ones together; forwarded frames are the accepted receptions times the other transports |
| `Router.OutgoingShape` | packages/meshsa/src/meshsa/router.py:112-115 | A forwarded message goes to every transport except the skipped one and is the same envelope on each |
| `Router.OutgoingInOrder` | packages/meshsa/src/meshsa/router.py:112-115 | The frames of one message go out transport by transport, in the order of the list |
| `Router.OutgoingOne` | packages/meshsa/src/meshsa/router.py:112-115 | One transport gets one frame unless it is skipped |
| `Router.DeliversTheNews` | packages/meshsa/src/meshsa/router.py:89-115 | Subscribers get, whole and in order of arrival, exactly the messages whose id is not among the last `size` accepted ones |
| `Router.SendsToTheOthers` | packages/meshsa/src/meshsa/router.py:77-115 | A publish is sent on every transport, a new message on every transport but its own, anything else on none |
| `Router.ArrivalsAreCounted` | packages/meshsa/src/meshsa/router.py:89-115 | Received, incompatible and undecodable frames each have their own counter |
| `Router.DeliversAtMostOnce` | packages/meshsa/src/meshsa/router.py:68-115 | With room for every id in use, subscribers see no id twice, and only ids that were shown to the router |
| `FloodLaws.FloodTerminates` | packages/meshsa/src/meshsa/router.py:68-115 | In any network with caches as large as the number of ids, a run of originations and deliveries, in any order, has at most nodes x ids x (links + 1) steps |
| `FloodLaws.StuckIsQuiet` | packages/meshsa/src/meshsa/router.py:89-115 | A run that cannot go on has published everything and has no frame in flight |
| `FloodLaws.NeverTwice` | packages/meshsa/src/meshsa/router.py:89-115 | No router ever delivers a message twice, and the origin never delivers its own |
| `FloodLaws.FloodDelivers` | packages/meshsa/src/meshsa/router.py:68-115 | Once the network is quiet, a router has delivered a message exactly once if the origin can reach it and is another router, and not at all otherwise |
| `FloodLaws.DeliverIsReceive` | packages/meshsa/src/meshsa/router.py:89-115 | The network's delivery step is one reception of one router: same cache, same delivery, broadcasts on the same ports |
| `FloodLaws.OriginateIsPublish` | packages/meshsa/src/meshsa/router.py:77-81 | The network's origination step is one publish of one router |
| `LinkHealth.RawOkExactly` | packages/meshsa/src/meshsa/fpv/link_health.py:135-177 | The raw state is OK exactly when statistics were seen, are younger than both age limits, and neither link quality nor signal strength is below its limits |
| `LinkHealth.RawStateExactly` | packages/meshsa/src/meshsa/fpv/link_health.py:135-177 | When the raw state is NO_DATA, CRITICAL or WARN, in terms of age, link quality and the signal of the antenna in use |
| `LinkHealth.RawReasonsExactly` | packages/meshsa/src/meshsa/fpv/link_health.py:135-177 | Each reason is given exactly when it applies, and below critical link quality no other |
| `LinkHealth.SeverityOrder` | packages/meshsa/src/meshsa/fpv/link_health.py:40-45 | From best to worst the states are OK, WARN, CRITICAL and NO_DATA |
| `LinkHealth.AgeingCanSoften` | packages/meshsa/src/meshsa/fpv/link_health.py:145-153 | A frame with critical link quality is CRITICAL when fresh and only WARN once slightly stale, if there is room between the two age limits |
| `LinkHealth.AgeingHardensExactly` | packages/meshsa/src/meshsa/fpv/link_health.py:145-153 | The raw severity of a frame never falls as it ages, exactly unless its link quality is critical and the second age limit lies above the first |
| `LinkHealth.PendingTracksRun` | packages/meshsa/src/meshsa/fpv/link_health.py:183-200 | The pending state and its start time are those of the current run of equal, better raw states |
| `LinkHealth.NeverBetterThanRaw` | packages/meshsa/src/meshsa/fpv/link_health.py:183-200 | The confirmed state is never less severe than the raw state it was computed from |
| `LinkHealth.RecoveryIsSustained` | packages/meshsa/src/meshsa/fpv/link_health.py:183-200 | Whenever the confirmed state improves, the raw state has been the new one without interruption for at least two samples and the hysteresis window |
| `LinkHealth.ConfirmedOkExactly` | packages/meshsa/src/meshsa/fpv/link_health.py:183-200 | With a monotone clock the confirmed state is OK exactly when the trailing run of raw OK samples has at least two of them and spans the hysteresis window |
| `LinkHealth.TelemetryStore.Update` | packages/meshsa/src/meshsa/fpv/telemetry_store.py:31-33 | A message replaces the latest entry of its own type and leaves the others alone |
| `LinkHealth.LinkHealthMonitor.ApplyHysteresis` | packages/meshsa/src/meshsa/fpv/link_health.py:183-200 | The field updates of the hysteresis are one step of the damping function |
| `LinkHealth.LinkHealthMonitor.Evaluate` | packages/meshsa/src/meshsa/fpv/link_health.py:111-133 | An evaluation stores and returns the damped report, and alerts exactly when the state differs from the previous report |
| `LinkHealth.MonitoredIsDamping` | packages/meshsa/src/meshsa/fpv/link_health.py:111-133 | The monitor's confirmed states over a run are the damping of its raw samples |
| `LinkHealth.ReportsExactly` | packages/meshsa/src/meshsa/fpv/link_health.py:111-133 | The last report of a run, and all alerts with the report each one follows, said without the monitor: the damped state, its permission, the raw reasons or the hold, the time |
| `LinkHealth.AlertsAreChanges` | packages/meshsa/src/meshsa/fpv/link_health.py:111-133 | The alerts are the confirmed states with consecutive repeats removed |
| `LinkHealth.AlertsChain` | packages/meshsa/src/meshsa/fpv/link_health.py:202-208 | Each alert names as previous state the state of the alert before it |
| `ArmGuard.ArmGuard.UpdateHealth` | packages/meshsa/src/meshsa/fpv/arm_guard.py:72-74 | A report replaces the one held |
| `ArmGuard.ArmGuard.SendRc` | packages/meshsa/src/meshsa/fpv/arm_guard.py:81-111 | A frame too short is refused; otherwise the latch, the output frame and the block record are those of the guard function |
| `ArmGuard.ReportsAreConfirmed` | packages/meshsa/src/meshsa/fpv/link_health.py:111-133 | Each report of a run carries the time of its evaluation and permits arming exactly when the damped state was OK |
| `ArmGuard.LatchIsOutput` | packages/meshsa/src/meshsa/fpv/arm_guard.py:81-111 | The latch is set exactly when the last output frame was armed |
| `ArmGuard.LatchIsOutputIff` | packages/meshsa/src/meshsa/fpv/arm_guard.py:81-111 | That holds on every run if and only if the clamp lies below the arm threshold |
| `ArmGuard.ArmingIsEarned` | packages/meshsa/src/meshsa/fpv/arm_guard.py:81-118 | An output frame is armed exactly when arming is asked for and either the last output was armed or the guarding report is fresh enough and ended an unbroken run of raw OK evaluations at least the hysteresis window long |
| `ArmGuard.OnlyTheArmChannelChanges` | packages/meshsa/src/meshsa/fpv/arm_guard.py:81-111 | Every accepted frame is output once, unchanged but for the arm channel of an arm request made while the previous output was disarmed |
| `ArmGuard.BlockedExactly` | packages/meshsa/src/meshsa/fpv/arm_guard.py:81-118 | Every refused arm request is on record with the value asked for and the value sent, in order, and nothing else is |
| `Commands.BuiltIsWhatItSays` | packages/meshsa/src/meshsa/command/commands.py:83-192 | Every buildable command is allow-listed; its name tells exactly whether its wire content arms or force-disarms, force-disarm needs the flag and the force confirmation, and some request means exactly this command |
| `Commands.BuiltMeansRequest` | packages/meshsa/src/meshsa/command/commands.py:83-192 | What is built is what was asked for: command number, message kind and every parameter by name; for goto latitude and longitude in this order to the nearest 1e-7 degree, altitude above home; for set_mode the flag and the mode |
| `CommandLedger.StepKeeps` | packages/meshsa/src/meshsa/command/service.py:66-96 | Every step of every thread, the reader and the clock keeps the books: each token is pending, cancelled or released, attempts and sends stay in step and within the bound, one terminal record at most |
| `CommandSafety.EverySendIsJustified` | packages/meshsa/src/meshsa/command/service.py:66-96 | Every frame sent belongs to a staged, allow-listed, once released, never cancelled token, is preceded by its own attempt record and by the drain of stale ACKs, respects the attempt bound, and carries the force magic or an arm only with the flag, acknowledgement or interlock behind it |
| `CommandSafety.EveryOutcomeIsJustified` | packages/meshsa/src/meshsa/command/lifecycle.py:109-151 | An outcome follows exactly one terminal record and no lost audit write, reports as many attempts as frames were sent, and acceptance rests on an examined matching ACK |
| `CommandSafety.ArmRestsOnHeartbeat` | packages/meshsa/src/meshsa/command/service.py:80-96 | An arm frame is preceded by its release, a heartbeat of the target, a look at the health report within the provider's own window after that heartbeat, and a permission given within the interlock's window after it |
| `CommandSafety.OneWinner` | packages/meshsa/src/meshsa/command/safety.py:60-79 | Whatever threads confirm or cancel it, a token is released or discarded at most once, sent at most the attempt bound, and finished at most once |
| `CommandSafety.LostAuditSilences` | packages/meshsa/src/meshsa/command/lifecycle.py:109-151 | After an audit write of a command has failed, no frame of that command is sent |
| `CommandAcks.ExaminedAckIsFresh` | packages/meshsa/src/meshsa/command/lifecycle.py:118-167 | Every ACK a command examines was put on the queue after that command's drain, and in queue order |
| `CommandOutcome.AcceptedRestsOnFreshAck` | packages/meshsa/src/meshsa/command/lifecycle.py:109-167 | A command is reported as accepted only on an accepting ACK that matches command and system and was enqueued after the drain, examined after that and before the outcome; the drain precedes every frame of the command |
| `CommandAcks.WaitingIsBounded` | packages/meshsa/src/meshsa/command/lifecycle.py:153-167 | The time a finished command spent waiting for ACKs is at most one timeout per attempt |
| `CommandAcks.WaitingIsCounted` | packages/meshsa/src/meshsa/command/lifecycle.py:153-167 | The time a thread spends inside recv_ack, and no other, is what the bound is about |
| `CommandWaits.NoAckMeansTimeout` | packages/meshsa/src/meshsa/command/lifecycle.py:153-167 | In every run, between the moment an attempt is about to start its timer and the moment it is about to record that no ACK came, at least the whole timeout passes |
| `CommandWaits.MatchingAckIsTaken` | packages/meshsa/src/meshsa/command/lifecycle.py:153-167 | In every run, before the timeout is over, a waiting thread with a matching ACK at the head of the queue comes by its own next statements to record that ACK |
| `CommandProgress.CommandGoesThrough` | packages/meshsa/src/meshsa/command/service.py:80-96 | From any state, a staged command that may be confirmed can be sent, and with an accepting ACK be reported as accepted on its first attempt |
| `CommandProgress.VerdictEnds` | packages/meshsa/src/meshsa/command/lifecycle.py:134-147 | Results 0, 2, 3, 4 and 6 end the command, on record and with its outcome: accepted for 0, rejected for the others |
| `CommandProgress.OtherwiseRetried` | packages/meshsa/src/meshsa/command/lifecycle.py:129-148 | Any other result, and silence, is recorded and leads to the next attempt while one is left, and to failure when none is |
| `CommandProgress.ExhaustedReportsLast` | packages/meshsa/src/meshsa/command/lifecycle.py:118-151 | In every run, a command that fails for want of attempts is reported with the last answer on record for it, or none |
| `CommandProgress.StopsOnlyForCause` | packages/meshsa/src/meshsa/command/service.py:80-96 | A thread stops only when an effect raised, when the gate refuses, when the interlock's refusal is on record, or with its command's outcome |
| `CommandProgress.InterlockExactly` | packages/meshsa/src/meshsa/command/service.py:88-92 | In every run, the interlock lets an arm through exactly when there is a provider that takes the last heartbeat for fresh when asked, and that heartbeat is recent enough when compared with the clock |
| `CommandProgress.BeatsAreTargets` | packages/meshsa/src/meshsa/command/mavlink_pump.py:125-153 | In every run, each heartbeat on record was a message of the configured system and component, at that time |
| `CommandAcks.NoAckLost` | packages/meshsa/src/meshsa/command/mavlink_pump.py:80-107 | While executions do not overlap, the ACKs that arrived since a command's drain are exactly those it examined, in order, followed by those still queued |
| `CommandOverlap.OverlapDiscards` | packages/meshsa/src/meshsa/command/mavlink_pump.py:87-107 | In any reachable state with one thread past its drain, another idle, and a command that may be confirmed, a schedule lets any ACK arrive and has the other thread's drain discard it; what was dequeued since the first drain is then no longer the first command's own |
| `CommandService.CommandService.Stage` | packages/meshsa/src/meshsa/command/service.py:66-73 | Exactly a request whose name is known and allowed, that is no disabled force-disarm and carries its builder's arguments becomes pending under its token, as the command it means; another leaves the gate alone |
| `CommandService.CommandService.Cancel` | packages/meshsa/src/meshsa/command/service.py:75-78 | Cancelling removes the token if it was pending |
| `CommandService.CommandService.Dispatch` | packages/meshsa/src/meshsa/command/mavlink_pump.py:125-153 | A heartbeat of the target sets the health timestamp, a well-formed ACK joins the queue, anything else changes nothing |
| `CommandService.CommandService.Drain` | packages/meshsa/src/meshsa/command/mavlink_pump.py:87-107 | The drain loop takes ACKs off until it sees the queue empty, whatever the reader adds meanwhile, and that moment is recorded; it is unfinished only when the log has grown by as much as it is observed for |
| `CommandService.CommandService.AwaitAck` | packages/meshsa/src/meshsa/command/lifecycle.py:153-167 | The wait loop returns only an ACK that it examined last and that matches command and system; it gives up only after the whole timeout, and is unfinished only while it is blocked or the log has grown by as much as it is observed for |
| `CommandService.CommandService.Execute` | packages/meshsa/src/meshsa/command/lifecycle.py:109-151 | The retry loop takes only steps of the state machine and returns the outcome the log announces; it raises only when an audit write or a send fails |
| `CommandService.CommandService.Release` | packages/meshsa/src/meshsa/command/safety.py:60-75 | A command is obtained only with its token no longer pending, the release recorded and the force rule met, an arm with the interlock still ahead; otherwise the thread is idle and the error says whether the token is not pending or lacks the acknowledgement |
| `CommandService.CommandService.Confirm` | packages/meshsa/src/meshsa/command/service.py:80-96 | Release, interlock, announcement and execution in sequence, as steps of the state machine; a returned outcome is the one the log announces, a blocked arm is on record, a refusal at the gate has its cause |
| `CommandService.LogIsJustified` | packages/meshsa/src/meshsa/command/service.py:66-96 | Whatever the methods of the service have done, every entry of its log is justified as in any run of the state machine |
| `CompactCodec.ReadStr` | packages/meshsa/src/meshsa/compact.py:46-49 | Reading a string needs only its length byte to be there; the text is whatever bytes follow, up to that length, if they are UTF-8 |
| `Utf8.RoundTrip` | packages/meshsa/src/meshsa/compact.py:38-49 | Decoding the UTF-8 form of a text gives the text |
| `Utf8.ScalarBytes` | packages/meshsa/src/meshsa/compact.py:38-49 | How many bytes a character takes, and what number its bytes spell |
| `Utf8.Canonical` | packages/meshsa/src/meshsa/compact.py:46-49 | Bytes that decode are the UTF-8 form of what they decode to |
| `Utf8.CutDecodes` | packages/meshsa/src/meshsa/compact.py:134-138 | A UTF-8 text cut at any byte decodes exactly when the cut falls between characters, to the characters before it |
| `CompactLaws.RoundTrip` | packages/meshsa/src/meshsa/compact.py:68-153 | Decoding an encoded position, marker or chat envelope gives its quantisation, whatever bytes follow, when its schema is supported, and reports it as incompatible when not |
| `CompactLaws.QuantisedOnce` | packages/meshsa/src/meshsa/compact.py:68-91 | Quantisation is idempotent and does not change the encoding |
| `CompactLaws.QuantisationError` | packages/meshsa/src/meshsa/compact.py:52-91 | Coordinates move by at most half of 1e-7 degree, altitude by at most half a metre, error radii by at most half a metre or to the saturation value |
| `CompactLaws.CoordinatesFit` | packages/meshsa/src/meshsa/compact.py:79-86 | Any latitude and longitude in range fits the 32-bit fields |
| `CompactLaws.EncodeInjective` | packages/meshsa/src/meshsa/compact.py:68-100 | Quantised envelopes with the same encoding are equal |
| `CompactLaws.PositionDecodesExactly` | packages/meshsa/src/meshsa/compact.py:103-131 | Bytes decode to a position envelope exactly when it is its own quantisation, its schema is supported and its encoding begins the bytes |
| `CompactLaws.PositionPrefixRejected` | packages/meshsa/src/meshsa/compact.py:103-131 | Every strict prefix of a position frame is rejected as undecodable |
| `CompactLaws.PositionLength` | packages/meshsa/src/meshsa/compact.py:68-91 | A position frame is 26 bytes plus the bytes of its three strings |
| `CompactWire.PositionOnTheWire` | packages/meshsa/src/meshsa/compact.py:68-91 | Every position and marker frame byte by byte: version, kind, 32-bit time, sender, id, latitude, longitude and height as signed big-endian numbers, the two radii, callsign and tier |
| `CompactWire.ChatOnTheWire` | packages/meshsa/src/meshsa/compact.py:68-96 | Every chat frame byte by byte |
| `CompactWire.EncodesExactly` | packages/meshsa/src/meshsa/compact.py:68-100 | Which envelopes have a frame, and which error the others get |
| `CompactWire.DefaultsArrive` | packages/meshsa/src/meshsa/compact.py:68-153 | What a receiver sees of absent or unknown fields, and of the time |
| `CompactLaws.ChatCutInText` | packages/meshsa/src/meshsa/compact.py:132-138 | A chat frame cut inside its text decodes to the text before the cut if that ends between characters and is rejected otherwise |
| `CompactLaws.ChatCutBeforeText` | packages/meshsa/src/meshsa/compact.py:132-138 | A chat frame cut before its text is rejected |
| `CompactCodec.PutStr` | packages/meshsa/src/meshsa/compact.py:38-43 | A text of at most 255 bytes is appended behind its length; a longer one is refused |
| `CompactCodec.EncodeFrame` | packages/meshsa/src/meshsa/compact.py:68-100 | The buffer built field by field is the specified encoding, with the same refusals in the same order |
| `CompactCodec.ReadFrame` | packages/meshsa/src/meshsa/compact.py:103-153 | The reader that advances an offset computes the specified decoding |
| `Braces.SplitTopLevel` | tools/validate_agents_docs.py:372-388 | The splitting loop computes the specified split at commas of depth zero |
| `Braces.FindClosing` | tools/validate_agents_docs.py:357-363 | The depth scan finds the brace that closes the group opened at the start, or none |
| `Braces.ExpandBraces` | tools/validate_agents_docs.py:347-369 | The recursive expansion computes the specified one and terminates on the number of opening braces |
| `BraceLaws.SplitRejoins` | tools/validate_agents_docs.py:372-388 | For any text, the parts joined by commas are the text |
| `BraceLaws.SplitExactly` | tools/validate_agents_docs.py:372-388 | Of balanced text, the split is the one list of balanced parts without a top-level comma that joins back to it |
| `BraceLaws.BracesGoneExactly` | tools/validate_agents_docs.py:347-369 | A result has no brace left exactly when the pattern's braces are balanced |
| `BraceTrees.ExpandDenotes` | tools/validate_agents_docs.py:347-369 | Expanding the text of an alternation tree gives the left-to-right product of its alternatives |
| `BraceTrees.BalancedExactly` | tools/validate_agents_docs.py:347-369 | The balanced patterns are exactly the texts of alternation trees |
| `Globs.GlobToRegex` | tools/validate_agents_docs.py:391-416 | The translation loop cuts the glob into its longest tokens, piece by piece |
| `Globs.MatchExpanded` | tools/validate_agents_docs.py:429-433 | An expanded glob matches when it, or the directory of a trailing tree glob, matches one of the paths |
| `Globs.GlobMatches` | tools/validate_agents_docs.py:419-433 | A pattern matches when one of its brace expansions does |
| `Globs.TreeMatches` | tools/validate_agents_docs.py:419-433 | A balanced pattern matches some of the paths exactly when one product of its alternatives does |
| `Globs.GroupIsChoice` | tools/validate_agents_docs.py:347-369 | A pattern with a brace group matches some of the paths exactly when the pattern with one of the options in the group's place does |
| `Globs.OwnSlashCount` | tools/validate_agents_docs.py:391-416 | A glob without a double star matches only paths with as many separators as itself |
| `Globs.MatchersAgreeUpToNewline` | tools/validate_agents_docs.py:882-884 | For globs of literals, single stars and question marks, the expression accepts exactly the paths the single-level matcher accepts, and those paths followed by one newline |
| `Globs.MatchersAgree` | tools/validate_agents_docs.py:882-884 | On paths without a newline the two matchers accept the same |
| `Globs.DirectoryAndBelow` | tools/validate_agents_docs.py:419-433 | A tree glob matches what its directory glob matches, the paths below that, and nothing else, also when the directory ends in a star |
| `Globs.AnyDirectory` | tools/validate_agents_docs.py:391-416 | A leading double star and slash stand for any directory, the top one included, and for nothing else |
| `Globs.AnyText` | tools/validate_agents_docs.py:391-416 | Any other leading double star stands for any text |
| `LandingService.HeartbeatMonitor.Beat` | packages/jetson_yolo_gcs/src/jetson_yolo_gcs/mavlink/heartbeat.py:46-51 | A beat sets the time of the last heartbeat |
| `LandingService.LandingTargetBridge.PollHeartbeat` | packages/jetson_yolo_gcs/src/jetson_yolo_gcs/mavlink/bridge.py:144-180 | A poll opens the link if needed, swallows every fault, notes freshness, and beats exactly on a message whose system and component are the configured ones, zero standing for any |
| `LandingService.LandingTargetBridge.NoteSuppressed` | packages/jetson_yolo_gcs/src/jetson_yolo_gcs/mavlink/bridge.py:352-364 | A suppression counts once for its reason and once for the streak |
| `LandingService.LandingTargetBridge.Publish` | packages/jetson_yolo_gcs/src/jetson_yolo_gcs/mavlink/bridge.py:207-258 | A publish ends as a send, a suppression with its reason, or a failure, with the counters of the model |
| `LandingService.LandingTargetBridge.SendLocalNed` | packages/jetson_yolo_gcs/src/jetson_yolo_gcs/mavlink/bridge.py:290-344 | The local frame is held back without a pose or a projection and fails when the pose source or the send raises |
| `LandingService.Pipeline.NotePublishCadence` | packages/jetson_yolo_gcs/src/jetson_yolo_gcs/pipeline.py:278-296 | A violation is counted when the gap since the last send exceeds the floor |
| `LandingService.Pipeline.PublishTarget` | packages/jetson_yolo_gcs/src/jetson_yolo_gcs/pipeline.py:233-276 | Failures are counted and re-raised past the tolerance; a suppression leaves the failure streak alone; a send resets it |
| `LandingService.Pipeline.UpdateTracks` | packages/jetson_yolo_gcs/src/jetson_yolo_gcs/pipeline.py:298-326 | A tracker fault is only counted; otherwise the counters are those of one pass over the frame's ids |
| `LandingService.Pipeline.Step` | packages/jetson_yolo_gcs/src/jetson_yolo_gcs/pipeline.py:184-231 | One frame: detection, tracking, stream, heartbeat poll and publish, in that order, with each fault handled on its own path |
| `LandingService.Pipeline.Run` | packages/jetson_yolo_gcs/src/jetson_yolo_gcs/pipeline.py:334-365 | The loop stops at the first point where a limit is reached, a stop was requested or a step raised, and returns the frames processed |
| `LandingLaws.SendsAreGated` | packages/jetson_yolo_gcs/src/jetson_yolo_gcs/mavlink/bridge.py:207-258 | With the gate on, every send is checked at most the timeout after the last drained heartbeat, and every heartbeat names the configured system and component, zero standing for any |
| `LandingLaws.HeardExactly` | packages/jetson_yolo_gcs/src/jetson_yolo_gcs/mavlink/bridge.py:144-180 | Over any run, a frame that reaches its poll on an open, gated link hears exactly the messages of the configured autopilot |
| `LandingLaws.AttemptEndsExactly` | packages/jetson_yolo_gcs/src/jetson_yolo_gcs/mavlink/bridge.py:207-258 | Over any run, when a publish attempt sends, fails, or is held back for which reason, in terms of the settings, the last heartbeat heard, the link, the pose and the send |
| `LandingLaws.LinkOpensExactly` | packages/jetson_yolo_gcs/src/jetson_yolo_gcs/mavlink/bridge.py:137-180 | The link is open from the first poll or unsuppressed publish on that opens it |
| `LandingLaws.FreshnessIsNoted` | packages/jetson_yolo_gcs/src/jetson_yolo_gcs/mavlink/bridge.py:182-198 | Each poll with the gate on notes whether the last heartbeat heard is within the window |
| `LandingLaws.DropsAreCounted` | packages/jetson_yolo_gcs/src/jetson_yolo_gcs/pipeline.py:184-231 | Malformed detections and stream faults are counted one by one |
| `LandingLaws.BooksAgree` | packages/jetson_yolo_gcs/src/jetson_yolo_gcs/pipeline.py:233-296 | After any frames every counter is what its name says about the events of the run: sends, suppressions, failures, failures since the last send, suppressions by reason, gaps above the cadence floor |
| `LandingLaws.AttemptsBalance` | packages/jetson_yolo_gcs/src/jetson_yolo_gcs/pipeline.py:233-276 | Sends, suppressions and failures together are the publish attempts |
| `LandingLaws.ReasonsSumExactly` | packages/jetson_yolo_gcs/src/jetson_yolo_gcs/mavlink/bridge.py:352-364 | The per-reason counts sum to the pipeline's suppressions exactly when the feature is enabled or nothing was attempted |
| `LandingLaws.EscalatesExactly` | packages/jetson_yolo_gcs/src/jetson_yolo_gcs/pipeline.py:233-276 | A frame raises exactly when its detector broke or its publish failed and is at least the (tolerance + 1)-th failure since the last send |
| `LandingLaws.TracksOfRun` | packages/jetson_yolo_gcs/src/jetson_yolo_gcs/pipeline.py:298-326 | The track counters depend on the tracker's answers alone |
| `LandingLaws.TrackingIsAdvisory` | packages/jetson_yolo_gcs/src/jetson_yolo_gcs/pipeline.py:211-214 | Whatever the tracker answers, the same messages are sent, withheld and counted |
| `Tracks.Tally` | packages/jetson_yolo_gcs/src/jetson_yolo_gcs/pipeline.py:317-326 | The loop counts the ids above the mark of the previous frame and raises the mark to the largest id |
| `Tracks.TotalIsDistinctExactly` | packages/jetson_yolo_gcs/src/jetson_yolo_gcs/pipeline.py:317-326 | With ids distinct within a frame the total never exceeds the distinct ids, and equals them exactly when each first appearance is above every id of the earlier frames |
| `Tracks.CountersExactly` | packages/jetson_yolo_gcs/src/jetson_yolo_gcs/pipeline.py:298-326 | Dropped counts the tracker faults, active the ids of the last frame without one |
| `OfflineService.BoundedQueue.Put` | packages/meshsa/src/meshsa/inference/service.py:131-150 | Inserting into a full deque drops the item at the other end and counts it |
| `OfflineService.BoundedQueue.Pop` | packages/meshsa/src/meshsa/inference/service.py:152-154 | The oldest item leaves |
| `OfflineService.InferenceService.HandleMessage` | packages/meshsa/src/meshsa/inference/service.py:208-237 | Own messages and insights are ignored; at the cap a message is shed and counted; otherwise a task starts |
| `OfflineService.InferenceService.FinishAnalysis` | packages/meshsa/src/meshsa/inference/service.py:239-262 | A retryable failure is queued when a queue is configured; other failures and empty results end the analysis |
| `OfflineService.InferenceService.FinishReplay` | packages/meshsa/src/meshsa/inference/service.py:287-314 | A retryable failure puts the item back in front and stops the drain, a permanent one drops it and goes on |
| `OfflineService.InferenceService.DrainOffline` | packages/meshsa/src/meshsa/inference/service.py:287-314 | The drain keeps the lock across its awaits, stops at the first answer that is a setback, and otherwise goes on until the queue is empty |
| `OfflineLaws.RunsAreSound` | packages/meshsa/src/meshsa/inference/service.py:208-314 | At every point of every interleaving, enqueued items are queued, in replay, resolved, dropped or lost; one replay at a time; the queue is in enqueue order and within its bound; pending tasks respect a non-zero cap |
| `OfflineLaws.LostExactly` | packages/meshsa/src/meshsa/inference/service.py:287-314 | An item is lost exactly when a replay or its publish ended in an error the drain does not handle |
| `OfflineLaws.QueuedAfterSetback` | packages/meshsa/src/meshsa/inference/service.py:239-314 | In any run, whenever something is queued and no drain is under way, the queue is as the last setback left it: a retryable failure, or a drain cut short by an error |
| `OfflineProgress.SuccessGoesForLock` | packages/meshsa/src/meshsa/inference/service.py:239-250 | A successful publish with something queued puts its task on the way to the drain lock |
| `OfflineProgress.SuccessDrains` | packages/meshsa/src/meshsa/inference/service.py:239-314 | In any run, from a successful publish until the next setback the queue is empty or some task is about to drain it: with every task finished and something queued, no success came after the last setback |
| `OfflineProgress.ReplayAnswered` | packages/meshsa/src/meshsa/inference/service.py:287-314 | A drain publishes the summary of a replay, lets go of an item that needs no more, and takes the next one as long as there is one |
| `OfflineProgress.InsightIsPublished` | packages/meshsa/src/meshsa/inference/service.py:239-247 | An analysis with a summary has its publish next |
| `OfflineProgress.NoDeadlock` | packages/meshsa/src/meshsa/inference/service.py:239-314 | In any run, as long as there is a task, it or the drainer it waits for can go on |
| `OfflineProgress.IntakeExactly` | packages/meshsa/src/meshsa/inference/service.py:208-237 | A message that is neither one's own nor an insight starts a task of its own or is counted as shed at the cap; another leaves no trace |
| `OfflineProgress.TasksAreWanted` | packages/meshsa/src/meshsa/inference/service.py:208-237 | In any run, what a task analyses is a message that was received and wanted |
| `OfflineProgress.QueuedAfterFailure` | packages/meshsa/src/meshsa/inference/service.py:252-262 | In any run, whatever is queued, in replay or settled was queued when an analysis of its own envelope failed in a way worth retrying |
| `OfflineProgress.FailureIsQueued` | packages/meshsa/src/meshsa/inference/service.py:131-150 | Such a failure puts the envelope last in the queue, at the cost of the oldest one when it is full |
| `OfflineProgress.DroppedExactly` | packages/meshsa/src/meshsa/inference/service.py:131-157 | In any run, the dropped items are the insertions into a full queue and the replays that failed for good |
| `RateGate.Gate.Space` | packages/meshsa/src/meshsa/inference/service.py:68-78 | A pass sleeps for what is missing of the interval, so clearances are at least the interval apart |
| `RateGate.Gate.SpaceAll` | packages/meshsa/src/meshsa/inference/service.py:68-78 | Any sequence of clearances is spaced by the interval |
| `RateGate.SpacedApart` | packages/meshsa/src/meshsa/inference/service.py:68-78 | Clearances n apart in sequence are at least n intervals apart in time |
| `RateGate.WaitIsShortest` | packages/meshsa/src/meshsa/inference/service.py:68-78 | A pass waits exactly until an interval has gone by since the last one, and not at all when it has |
| `RateGate.RateIsBoundedExactly` | packages/meshsa/src/meshsa/inference/service.py:80-95 | No schedule can start two requests closer together than the interval exactly when concurrency is not limited as well: requests that queue for a permit can |
| `Dataset.ReadJsonl` | packages/meshsa/src/meshsa/fpv/dataset.py:23-61 | The reading loop gives the verdict on the session's non-blank lines: corruption, no record, or header and records after the schema check; leading nulls count as absent |
| `Dataset.LeadingNullIsSkipped` | packages/meshsa/src/meshsa/fpv/dataset.py:36-55 | A session that starts with a null line reads like the session without it |
| `Dataset.CheckExactly` | packages/meshsa/src/meshsa/fpv/dataset.py:36-61 | A header is accepted exactly when it is an object whose schema version is 1 or 2, true counting as 1, and version 1 is marked as older |
| `Dataset.LookupExactly` | packages/meshsa/src/meshsa/fpv/dataset.py:49-61 | Of several fields of one name the last counts |
| `Dataset.BlankLineIsSkipped` | packages/meshsa/src/meshsa/fpv/dataset.py:36-48 | A blank line anywhere makes no difference |
| `CrashRecovery.CorruptExactly` | packages/meshsa/src/meshsa/fpv/dataset.py:36-55 | A session is corrupt exactly when an unreadable line is followed by another non-blank line |
| `CrashRecovery.CompleteIs` | packages/meshsa/src/meshsa/fpv/flight_logger.py:283-310 | The number of complete objects at a cut is the largest whose text fits |
| `CrashRecovery.CrashRecovers` | packages/meshsa/src/meshsa/fpv/dataset.py:23-61 | A session file cut at any byte after its header reads back as the header and exactly the records complete at the cut |
| `Json.CutIsOpen` | packages/meshsa/src/meshsa/fpv/flight_logger.py:297 | A strict prefix of an object's text leaves a brace open, so it is not JSON |
| `Json.DumpKeeps` | packages/meshsa/src/meshsa/fpv/flight_logger.py:297 | The text of a value is printable ASCII on one line and closes every group and string it opens |
| `FlightLog.FlightLogger.EnqueueLossy` | packages/meshsa/src/meshsa/fpv/flight_logger.py:269-281 | With room, a record joins the queue at its end and nothing is dropped; with a full queue it is counted as dropped; a closed logger refuses it |
| `FlightLog.FlightLogger.RecordEvent` | packages/meshsa/src/meshsa/fpv/flight_logger.py:224-239 | With room, an event joins the queue at its end; otherwise the caller gets an exception, and nothing is dropped silently |
| `FlightLog.FlightLogger.WriteOne` | packages/meshsa/src/meshsa/fpv/flight_logger.py:283-310 | The writer takes the oldest item and writes it to its stream, or counts it as dropped when the write fails |
| `FlightLog.FlightLogger.FinishWriting` | packages/meshsa/src/meshsa/fpv/flight_logger.py:283-310 | After close the writer handles everything queued in order, and stops exactly when a sentinel was among it; then every offered record is on file, counted as dropped, or was refused with an exception |
| `FlightLog.CloseSignsOff` | packages/meshsa/src/meshsa/fpv/flight_logger.py:176-207 | Close leaves a sentinel behind exactly when the queue has room for it |
| `FlightLog.FlightLogger.CloseLogger` | packages/meshsa/src/meshsa/fpv/flight_logger.py:176-207 | Closing marks the logger closed once and signs off with a sentinel if there is room |
| `FlightLog.FlightLogger.Shutdown` | packages/meshsa/src/meshsa/fpv/flight_logger.py:176-207 | Closing and letting the writer finish leaves nothing queued and every offered record accounted for; the writer is told to stop exactly unless the queue was full |
| `FlightLog.RunsKeep` | packages/meshsa/src/meshsa/fpv/flight_logger.py:224-310 | In every interleaving each file is its header and then its written records in queue order, and every offered record is accounted for |
| `FlightLog.QueueIsFifo` | packages/meshsa/src/meshsa/fpv/flight_logger.py:224-310 | In every run, what the writer has taken and what is queued are together exactly the calls made while the logger was open and had room, in their order |
| `FlightLog.DroppedExactly` | packages/meshsa/src/meshsa/fpv/flight_logger.py:269-310 | In every run, the records of a stream counted as dropped are the lossy calls that found an open logger's queue full and its failed writes |
| `FlightLog.NothingDropped` | packages/meshsa/src/meshsa/fpv/flight_logger.py:269-310 | With an unbounded queue and no failing write nothing is ever dropped |
| `FlightLog.CrashKeepsAPrefix` | packages/meshsa/src/meshsa/fpv/flight_logger.py:152-167 | Whatever was going on, a file cut after its header reads back as the header and the first records written, all of them if nothing was cut |
| `Refresh.MockupPreview.Enter` | artifacts/mockup-sandbox/mockupPreviewPlugin.ts:82-91 | A request made while a discovery runs only raises the flag; otherwise it starts one |
| `Refresh.MockupPreview.Resume` | artifacts/mockup-sandbox/mockupPreviewPlugin.ts:92-111 | The end of a discovery stores a changed source and starts over exactly when a request is queued |
| `Refresh.MockupPreview.Fail` | artifacts/mockup-sandbox/mockupPreviewPlugin.ts:99-101 | An error leaves through the finally block with the queued flag as it was |
| `Refresh.MockupPreview.RunRefresh` | artifacts/mockup-sandbox/mockupPreviewPlugin.ts:82-111 | A call that ends without an error leaves nothing queued and every request so far followed by a discovery; it goes on as long as requests keep coming, and answers whether any discovery changed the source |
| `Refresh.RunsAreSound` | artifacts/mockup-sandbox/mockupPreviewPlugin.ts:79-111 | At every await at most one discovery runs, exactly while the flag is up, and a request not followed yet is queued |
| `Refresh.NoRequestIsLost` | artifacts/mockup-sandbox/mockupPreviewPlugin.ts:79-111 | As long as nothing raises, whenever nothing is running either nothing was asked for, or the last discovery began no earlier than any request and the file holds what it found |
| `Refresh.LastSourceIsFresh` | artifacts/mockup-sandbox/mockupPreviewPlugin.ts:92-111 | The discovery on whose end the plugin goes idle began no earlier than any request, and its source is what the file holds |
| `Refresh.RaisingLosesExactly` | artifacts/mockup-sandbox/mockupPreviewPlugin.ts:99-107 | Any error, in any run, leaves a request that nothing follows exactly when one was made after the discovery that raises began |
| `Refresh.FirstRaiseLosesExactly` | artifacts/mockup-sandbox/mockupPreviewPlugin.ts:99-107 | For the first error of a run that is exactly when the queued flag is up |
| `Refresh.TheFlagCanBeStale` | artifacts/mockup-sandbox/mockupPreviewPlugin.ts:99-107 | Later the flag can be left over: a run in which it is up when the second error comes and yet every request was followed |
| `Refresh.ARequestCanBeLost` | artifacts/mockup-sandbox/mockupPreviewPlugin.ts:99-107 | Such a run exists: two requests, and the first discovery raises |
| `Refresh.NextRequestRescues` | artifacts/mockup-sandbox/mockupPreviewPlugin.ts:82-111 | The next request is followed by a discovery that covers all earlier ones |
| `Refresh.FileIsStaleExactly` | artifacts/mockup-sandbox/mockupPreviewPlugin.ts:92-98 | At any time of any run the file differs from the remembered source exactly when the write of that source failed and no other source was found since |
| `Refresh.AFailedWriteSticks` | artifacts/mockup-sandbox/mockupPreviewPlugin.ts:92-98 | After a failed write, a later discovery of the same source does not write it again |

## Left out

- Router: a negative cache size, and sends or encodings that raise inside the pump.
- FloodLaws.FloodDelivers: codecs that rewrite message ids (the CoT codec does), lossy media, and two originations of one id; the caches are assumed at least as large as the number of ids.
- CommandService.CommandService.Execute: its loops are observed for a bounded number of turns (`patience`), because the code itself may wait for a reader that never stops; an execution is reported as unfinished only while it waits for an ACK, or after at least that many entries were added to the log. The state machine it refines has no such bound.
- CommandService.CommandService.Drain: bounded by `patience` for the same reason, and without the number of ACKs dropped, which the code returns to a caller that ignores it.
- CommandService.CommandService.AwaitAck: bounded by `patience` for the same reason.
- CommandService.CommandService.Confirm: unfinished when one of its loops is.
- CommandService.CommandService.Stage: does not model the audit write of staging, which comes after the token is in place and affects nothing else, and token ids are assumed fresh.
- CommandService.CommandService.Cancel: does not model the audit write of cancelling, for the same reason.
- CompactCodec.EncodeFrame: message kinds with a JSON body are not expressed.
- CompactCodec.ReadFrame: a frame with a JSON body is only recognised; whether its body is in order is not decided.
- CommandAcks.NoAckLost: states the case of one execution at a time, which the code does not enforce; `CommandOverlap.OverlapDiscards` shows what happens otherwise.
- Commands: the parameter ranges an autopilot accepts; a send that raises is modelled as not having left.
- Health reports are read in one step, although the provider reads its timestamp twice.
- ArmGuard.ArmGuard.SendRc: does not model an RC link that raises, nor the console and event sinks.
- Compact: the payload validation that follows decoding, text that is not Unicode, and NaN or infinite numbers.
- Floating-point rounding everywhere: coordinates and times are reals, rounded half to even where the code rounds.
- Globs.GlobMatches: the bracket classes of fnmatch; the pattern list the single-level matcher is used with has none.
- LandingTarget: the numbers inside the message (angles, sizes, projected position, time stamp), the choice among several detections, and the log output.
- LandingService.Pipeline.Run: the camera is observed for a finite number of frames; a loop that would go on is reported as running.
- OfflineService.InferenceService.HandleMessage: the service is running; a stopped one ignores every message.
- OfflineQueue: cancellation and `stop`, and the content of the published insight.
- OfflineService.InferenceService.DrainOffline: observed for as many replays as there are answers given, because producers may refill the queue for ever.
- Refresh.MockupPreview.RunRefresh: observed for as many discoveries as its script tells of, for the same reason.
- RateGate: that a sleep lasts at least as long as asked, and that the clock does not run backwards, is required of the caller.
- CrashRecovery.CrashRecovers: requires of the JSON library that it reads back what was written and reads no text that leaves a group or a string open; the second half, that a cut object does leave one open, is proved.
- FlightLog: a write that fails part of the way, calls that race with `close`, the manifest, and flushing to disk (a crash may cut the file anywhere).
- Refresh: what a discovery looks at while it runs, and the return value a caller sees after an error.
- HTTP applications, sockets, threads as operating-system objects, XML and JSON codecs, projection geometry, user interface, configuration loading and document checks other than globs.
