# The message path, from sender to stored score

A model of a small distributed monitoring system, and proofs about it. A sender signs telemetry and
events; a **controller** rejects what is forged, unlisted or replayed, raises alerts, gives every
output a persisted offset and hands it to a **risk engine**; the engine matches rules, correlates
across nodes and over time, scores the node, commits event, score and watermark in one transaction
and sets the node's status; an operator approves, denies, restarts or resets. In front of the
controller, the **security monitor** joins network alerts with container events, enforces a
first-match policy and limits its own rate. Beside all of it, an offline **beacon detector**
reads connection logs.

Parts that change state step by step are classes with methods. Each method is verified
against a function on values, and the theorems are about those functions: over one step, over whole
streams, over pairs of streams, and over every interleaving of crashes, losses, duplicates and
reorderings. Time is an argument, one real-valued reading per step.

| file | models |
|---|---|
| `SlidingWindow.dfy` | pruned time-stamped queues, and the one relation that says a queue stands for a full history |
| `ReplayGuard.dfy`, `FloodGuard.dfy` | the controller's two guards |
| `SecureMessenger.dfy`, `HonestSender.dfy` | signing and verification; an honest sender behind the controller |
| `Controller.dfy`, `ControllerRuns.dfy`, `ControllerHistory.dfy`, `ControllerAlerts.dfy` | the gate step; whole streams and pairs of streams through it; its verdicts in terms of all that arrived; whom its outputs are about |
| `EngineIntake.dfy`, `SharedOffsets.dfy`, `EngineStream.dfy` | the watermark rule; which outputs of a step it drops; the event loop over a stream |
| `Delivery.dfy`, `Commits.dfy`, `RogueNodes.dfy` | controller and engine with crashes, heartbeats, operator commands, resets and a faulty channel: offsets, commits, and the persisted blacklist |
| `Correlator.dfy`, `Rules.dfy`, `Scoring.dfy`, `Pipeline.dfy`, `PipelineHistory.dfy` | how an event becomes a score; a decision in terms of every event processed before |
| `Store.dfy`, `RiskEngine.dfy`, `NodeLife.dfy`, `EngineHistory.dfy`, `HistoryRuns.dfy`, `LatchRuns.dfy`, `EngineRestart.dfy`, `RestartRuns.dfy` | transactions; engine events, heartbeats, operator commands and engine crashes as steps on one state; which step changes a node's status; rows in terms of the history, and runs; runs that lose a latch; restarts and runs they change |
| `EventForwarder.dfy`, `ThreatCorrelator.dfy`, `PolicyEngine.dfy` | the security monitor |
| `BeaconDetector.dfy` | grouping, gaps and their variance |

## Where the code does not do what it says

Each of these is shown by a concrete case in which the promise fails and by exactly the condition, for all
inputs, under which it holds.

- The forwarder's limit is meant to keep the monitor below the flood threshold
  (`security_monitor/event_forwarder.py:14-16`). It limits each node name, but all names reach the controller under one
  identity: it holds for one name and fails from two on (`TwoNamesFlagged`, `FloodFreeIffOneName`).
- Sequence numbers seeded from the clock are meant to stay monotone across restarts
  (`shared/secure_messenger.py:78-79`). Two messengers created in one millisecond collide, however slowly they
  sign (`SameMillisecondRestart`). A tenant's messages all pass exactly if each number signed is above the one before, so
  a re-creation is safe exactly if the clock's millisecond is not below the last number (`HonestPassesIff`,
  `RecreatedPassesIff`).
- An exempt infrastructure node's envelope dated ahead of the clock outlives its entry in the window and is accepted
  again (`FutureDatedReplay`). After any calls, an accepted envelope can still be accepted again exactly if it is not
  stale yet and was dated ahead of its last acceptance, or a whole window has come since (`StillReplayableIff`).
- A flood alert and the next output of its step share an offset, so the engine's watermark drops the second. That is the
  message itself, or, if its machine id has changed, the CRITICAL impersonation alert
  (`FloodingMessageLost`, `ImpersonationAlertLost`, `PassedReachesDatabaseIff`).
- An operator's reset zeroes the watermark and deletes the offset file. Every committed message still on the channel is
  then committed again (`ResetAllowsSecondCommit`, `CommitsAfterResetIff`, `RecommittedAfterReset`), and a restarted
  controller uses offsets a second time, unless none was ever sent (`ResetReusesOffset`, `FreshAfterRestartIff`,
  `ResetThenRestartFreshIff`). Between two resets each offset is committed at most once (`CommitsAtMostOnce`).
- The multi-signal label is the last matching rule's, not that of the rule with the reported multiplier
  (`LabelOfAnotherRule`, on the shipped table; `LabelFitsIff`).
- A restart reloads cross-node windows but no multi-signal history: findings completed across it are lost
  (`RestartForgetsSignals`, on the shipped table; `RestartLosesIff`; gone after the widest window, `RestartConverges`).
- A warm restart is meant to bring the cross-node windows back. After a reset or a failing commit the running engine
  remembers nodes its database does not, and a restart changes answers (`ResetForgetsRun`, `FailedCommitForgetsRun`;
  `RestartChangesIff`; without either it changes none, `EngineRestartAgrees`).
- Scores under review are meant not to decay (`risk_engine/scoring.py:36-39`), but the high bucket starts above 70 and the
  latch at 71: under the shipped rules twenty-one replay alerts put node1 at 70.875 and up for review, and its next
  telemetry decays it out (`ReviewLostRun`, `ReviewSurvivesIff`).
- A quarantine by heartbeat or by deny is undone by the node's next clean event unless its score is above 100
  (`QuarantineLostRun`, `QuarantineSurvivesIff`).
- A node above 100 is meant to be quarantined. Event and score are committed before the status is written: if that write
  raises, or the engine dies in between, the node stays as it was and the event is never handled again
  (`StatusLossRun`). It breaks exactly if the node was not quarantined and its new score rounds above 100
  (`StatusLossHoldsIff`); without such a loss on the node itself it always holds (`QuarantineLatch`).
- Commands run on a thread of their own. A deny that falls between the commit of a message of its node and the status
  write is answered and then overwritten, unless the step itself quarantines the node (`DenyLostRun`, `DenyInStepIff`,
  `StatusWriteWins`).
- Stored scores are rounded to four places, so a decay rate off that grid is distorted, and a rate under half a grid step
  never decays anything (`DecayExactIff`, `TinyRateNeverDecays`).

## Model

| member | source | states |
|---|---|---|
| SlidingWindow.PopExpired | controller/controller.py:137-140 | the pruning loop is eviction of the expired front |
| SlidingWindow.EvictIsSince | controller/controller.py:164-170 | on an ordered queue the loop leaves exactly the entries not older than the cutoff, and removes exactly a prefix |
| SlidingWindow.AgreesQuery | risk_engine/correlation.py:68-78 | a queue that stands for a full history answers, once pruned, like the query over that history |
| SlidingWindow.AgreesEvict | risk_engine/correlation.py:68-72 | pruning keeps a queue standing for its full history |
| SlidingWindow.AgreesAppend | risk_engine/correlation.py:77 | appending the newest entry on both sides keeps the agreement |
| SlidingWindow.AgreesLater | risk_engine/correlation.py:68-72 | agreement at one clock reading gives agreement at every later one: pruning never changes a later answer |
| SlidingWindow.AgreesCount | controller/controller.py:165-171 | the pruned length is the number of entries of the full history in the closed window |
| ReplayGuard.Guard.Inspect | controller/controller.py:113-151 | the in-place check: freshness, sequence number unless exempt, pruning, duplicate id, eviction by size, recording; verdict and both dictionaries, error cases included |
| ReplayGuard.GuardRefinesHistory | controller/controller.py:102-151 | over any call stream with a clock that does not run back, the guard accepts exactly what a specification that keeps every accepted envelope accepts |
| ReplayGuard.CheckRefines | controller/controller.py:136-151 | one check, whatever its verdict, keeps every node's queue the suffix of that node's acceptance history |
| ReplayGuard.VerdictByHistory | controller/controller.py:113-151 | after any calls the reason of a rejection is the first that applies of: no timestamp, too far from the clock, number not above the last accepted one, id accepted recently, each by the full acceptance history |
| ReplayGuard.RejectedCallIsInvisible | controller/controller.py:118-151 | deleting a rejected call from anywhere in a stream changes no later verdict |
| ReplayGuard.ReplayAtMostOnce | controller/controller.py:129-151 | a tenant's accepted sequence numbers strictly increase; no envelope is accepted twice unless its node is exempt and it was future-dated or a whole window of acceptances came between |
| ReplayGuard.FutureDatedReplay | controller/controller.py:120-144 | the exception is real: a concrete exempt envelope accepted at 0 s and again at 60 s |
| ReplayGuard.StillReplayableIff | controller/controller.py:118-148 | after any calls, an exempt node's accepted envelope can be accepted by the guard again at some later time iff it is not stale yet and was dated ahead of its last acceptance, or a whole window of acceptances has come since |
| FloodGuard.Guard.Inspect | controller/controller.py:162-171 | the in-place check: prune, append, count, compare |
| FloodGuard.QueueAgrees | controller/controller.py:162-171 | after any ordered stream each node's queue stands for all of that node's checks |
| FloodGuard.FloodCountIsExact | controller/controller.py:162-171 | the count is the number of the node's checks, this one included, in the closed last minute of the full history, and flooding is exceeding the maximum |
| SecureMessenger.Messenger.constructor | shared/secure_messenger.py:73-80 | the counter starts at the clock in whole milliseconds |
| SecureMessenger.Messenger.NextSeq | shared/secure_messenger.py:82-85 | the counter rises by one and is returned |
| SecureMessenger.Messenger.Sign | shared/secure_messenger.py:96-112 | the signed envelope: own identity over the payload's, next sequence number, digest over everything but the digest |
| SecureMessenger.SealedVerifies | shared/secure_messenger.py:109-122 | what was signed verifies under the same secret |
| SecureMessenger.SignedIsUnaltered | shared/secure_messenger.py:96-122 | under a digest without collisions a message that verifies with a signed message's digest is that message, unaltered; a signed message carries the payload's content and alert flag under the messenger's own identity; a message without a digest never verifies |
| HonestSender.PacedIsSeeded | shared/secure_messenger.py:73-85 | a sender that never signs more than milliseconds pass signs strictly rising numbers, however often re-created |
| HonestSender.HonestPassesIff | controller/controller.py:113-151 | all messages of a sender, re-created any number of times, with unique ids and timely delivery, pass blacklist, signature, allowlist and replay guard, whatever else arrives in between, iff the node is exempt or each number signed is above the one before |
| HonestSender.HonestNeverRejected | controller/controller.py:264-331 | in particular a sender that signs no more messages than milliseconds pass since its creation is never rejected, forgeries under its name notwithstanding |
| HonestSender.SameMillisecondRestart | shared/secure_messenger.py:78-85 | two creations in one millisecond, two messages in different milliseconds: the second is rejected |
| HonestSender.RecreatedPassesIff | shared/secure_messenger.py:78-85 | a tenant with rising numbers so far that is re-created and signs once more has its whole run passed exactly if the creation's millisecond is not below its last number |
| Controller.Controller.constructor | controller/controller.py:63-86 | a start or restart: offset and blacklist from their files, everything else empty |
| Controller.Controller.Handle | controller/controller.py:257-403 | one message through the gate: state, effects in order (file writes and sends) and whether it passed, for every branch |
| Controller.Controller.AdmitMessage | controller/controller.py:333-403 | what follows the rejecting checks: flood alert at most once a minute, identity tracking, forward without digest |
| Controller.Controller.AlertFlood | controller/controller.py:335-354 | a flood alert with the current offset, saved first, if none was raised for the node in the last minute |
| Controller.Controller.TrackIdentity | controller/controller.py:357-384 | a changed machine id is remembered, raises one alert with the old offset, and takes an offset of its own |
| ControllerRuns.SentByPass | controller/controller.py:333-399 | a passing step sends flood alert, then impersonation alert, then the message, each with its offset |
| ControllerRuns.SentByReject | controller/controller.py:270-331 | a rejected message yields nothing if blacklisted and otherwise one alert, with a fresh offset, that names the first check it failed |
| ControllerRuns.RejectionErasure | controller/controller.py:257-403 | deleting every rejected message leaves forwarded messages, flood alerts and impersonation alerts the same, in order and time, up to offsets; and nothing of the rest is rejected |
| ControllerRuns.ErasureFrom | controller/controller.py:113-171 | the same from any two controller states no later check can tell apart |
| ControllerRuns.RunAscends | controller/controller.py:274-399 | offsets sent never fall and stay above the starting and within the final offset |
| ControllerRuns.ForwardedSeqsIncrease | controller/controller.py:131-150 | sequence numbers of a tenant's forwarded messages strictly increase over the whole output |
| ControllerRuns.FloodAlertsSpaced | controller/controller.py:339-354 | any two flood alerts for a node are at least 60 s apart |
| ControllerRuns.FloodAlertRaised | controller/controller.py:334-354 | a passing message that finds its node flooding with no alert in the last 60 s raises one (the clock must read at least 60, because the unset last alert counts as time 0) |
| ControllerRuns.RunFeedsGuards | controller/controller.py:317-334 | after any stream both guards hold what their own call histories produce, so their theorems apply inside the controller |
| ControllerHistory.AdmittedIff | controller/controller.py:257-403 | after any arrivals in order, a message passes iff its name was not blacklisted at the start, it verifies, its name is allowed, and the full acceptance history of its node admits it |
| ControllerHistory.ListGrowsByDisallowed | controller/controller.py:295-301 | over a stream the blacklist only grows, and only by disallowed names |
| ControllerHistory.FloodCallsAreKept | controller/controller.py:316-334 | the flood guard has seen exactly the messages that passed |
| ControllerHistory.FloodAlertCountsPassed | controller/controller.py:333-354 | the count in a flood alert is the number of that node's messages that passed in the closed last minute, and exceeds the maximum; rejected messages never count |
| ControllerAlerts.OutputsName | controller/controller.py:274-399 | every output of a step carries its time and is about its message: the node, and for each kind of notice the message id, sequence number and machine id it names; a forward is the message without its digest |
| ControllerAlerts.RunNames | controller/controller.py:257-403 | over a whole run the outputs can be attributed to arrivals, in the arrivals' order, each naming its arrival's node and carrying its time |
| ControllerAlerts.ImpersonationIff | controller/controller.py:357-384 | after any arrivals a message raises an impersonation alert iff it passes with a machine id and the last message of its node that passed with one gave another; the alert names both |
| EngineIntake.WatermarkIsFullDedup | risk_engine/engine.py:166-198 | on everything a controller sends, the rule with one integer watermark lets through exactly the first valid message of each offset, as a set of all committed offsets would |
| EngineIntake.ForwardedValidIff | risk_engine/engine.py:41-63 | a forwarded message is valid iff it has a node and, unless it says it is an alert, the five other fields |
| EngineIntake.MarkIsFullDedup | risk_engine/engine.py:173-176 | the same for any stream whose offsets do not fall |
| EngineIntake.OffsetsRiseAcrossSteps | controller/controller.py:274-399 | equal offsets arise only within one controller step |
| EngineIntake.InsertedBelowMark | risk_engine/engine.py:166-176 | a malformed message, or one at or below the watermark, inserted anywhere changes neither the watermark nor what is let through |
| EngineStream.LoopCommits | risk_engine/engine.py:159-226 | the event loop over any stream appends exactly one row per output the watermark rule commits, in order, ends with the rule's watermark, and is in the state of an engine sent those outputs alone |
| EngineStream.LoopIsFullDedup | risk_engine/engine.py:173-198 | on everything a controller sends, the engine's state and rows are those of the first valid message of each offset |
| EngineStream.InsertedChangesNothing | risk_engine/engine.py:166-176 | a malformed message, or one at or below the engine's watermark, inserted anywhere leaves the whole engine state the same |
| EngineStream.RowsNameArrivals | risk_engine/engine.py:166-198 | on everything a controller sends, every row the engine writes is under the node of some message that arrived |
| SharedOffsets.PassedReachesDatabaseIff | controller/controller.py:333-399 | wherever a passing message stands in a run it is committed iff it is valid and no flood alert is due with it or its machine id changed; the impersonation alert is committed iff no flood alert is due; a flood alert always is |
| SharedOffsets.FloodingMessageLost | controller/controller.py:351-393 | under the shipped limits and the controller's own verification, the twenty-first message of a signed burst is forwarded and never committed |
| SharedOffsets.ImpersonationAlertLost | controller/controller.py:351-384 | signed with another machine id, the message survives and its impersonation alert is lost |
| Delivery.StepAhead | controller/controller.py:276-399 | every send of a step is preceded by saving an offset at least as large, and all are above the offset before |
| Delivery.OffsetsNeverReused | controller/controller.py:63-77 | over any interleaving without a reset, with crashes between any two effects, offsets on the channel never fall, and equal ones come from one step of one lifetime |
| Delivery.FreshAfterRestartIff | controller/controller.py:63-77 | after anything, resets included, a controller that restarts sends only offsets above all sent so far, until the next reset, iff the offset file is not behind them |
| Delivery.ResetThenRestartFreshIff | risk_engine/cmd_server.py:165-178 | a restart after a reset is safe in that sense exactly if nothing with a positive offset was ever sent |
| Delivery.ResetReusesOffset | risk_engine/cmd_server.py:165-178 | one alert, a reset, a restart, one alert: the same offset from two lifetimes |
| Commits.CommitsAtMostOnce | risk_engine/store.py:205-267 | over a channel that loses, duplicates and reorders, with crashes on both sides, failing events, heartbeats, operator commands and resets at will: since the last reset committed offsets strictly increase, every committed message was sent and is valid, each was decided by the pipeline on the score left before it, and events, scores and watermark are what these commits and operations write to an empty database |
| Commits.OperationLogged | risk_engine/cmd_server.py:37-152 | a heartbeat check, approve, restart or deny moves neither watermark, changes no other node's score, and writes to events and scores what its log entry says |
| Commits.ScoreChangeCauses | risk_engine/engine.py:173-198 | scores change only in a reset, in a commit of a message whose offset is above all committed since the last one, or in an approve or restart that goes ahead; a commit changes its node's score to the decided one, a release its node's to zero, and neither any other |
| Commits.EngineFollowsLog | risk_engine/engine.py:159-226 | behind any channel, controller and operator, an engine that does not crash, is not reset, loses no event before its commit and sees no operation between a commit and the status write of the same node is in the state reached by acting on exactly the committed messages and the operations, in order |
| Commits.StatusWriteWins | risk_engine/engine.py:197-212 | whatever an operation does between a commit of its node and the status write, the statuses afterwards are those without it |
| Commits.DenyInStepIff | risk_engine/cmd_server.py:112-152 | a deny in that gap has the effect of one after the step exactly if the step itself quarantines the node |
| Commits.DenyLostRun | risk_engine/cmd_server.py:112-152 | one alert from an idle node: denied in the gap it ends idle, denied after the step it ends quarantined |
| Commits.CommitsAfterResetIff | risk_engine/cmd_server.py:154-163 | in an idle engine just reset a delivery commits iff the message is valid and its offset positive |
| Commits.RecommittedAfterReset | risk_engine/cmd_server.py:154-163 | hence every message ever committed is committed again if a copy of it is delivered |
| Commits.ResetAllowsSecondCommit | risk_engine/cmd_server.py:154-163 | one alert, committed, a reset, and its duplicate committed a second time |
| RogueNodes.StepAnnounces | controller/controller.py:295-314 | only a disallowed, unlisted name changes the blacklist or raises a rogue alert, in the order blacklist file, offset file, alert |
| RogueNodes.RogueAlertsOnce | controller/controller.py:80-95 | over any crashes and resets each disallowed name gets at most one rogue alert |
| RogueNodes.SilentAfterAlert | controller/controller.py:270-272 | once that alert is out, every later message of the name yields no output and no offset, after any crashes |
| RogueNodes.ListsStayDisjoint | controller/controller.py:295-301 | blacklist and allowlist stay disjoint if they start so |
| EventForwarder.Forwarder.Offer | security_monitor/event_forwarder.py:26-36 | admit or drop, and the name's queue after it |
| EventForwarder.LimiterGoverns | security_monitor/event_forwarder.py:26-36 | after any ordered stream the queue stands for all admissions of its name, and no admission ever made the sixteenth in the minute before it |
| EventForwarder.AdmittedIff | security_monitor/event_forwarder.py:26-63 | after any stream in order an event is admitted iff fewer than 15 events of its name were admitted in the closed minute before; its name is its node id, or failing that its node, or unknown |
| EventForwarder.RateBound | security_monitor/event_forwarder.py:14-36 | at most 15 admissions per name in every closed minute and 15m in every closed m minutes, wherever the interval starts |
| EventForwarder.SharedIdentityBound | shared/secure_messenger.py:100-107 | k names signed as one identity give the controller's flood guard counts of at most 15k |
| EventForwarder.OneNameNeverFlagged | controller/controller.py:162-171 | one name's admitted stream is never flagged by the flood guard |
| EventForwarder.TwoNamesFlagged | security_monitor/event_forwarder.py:46-63 | eleven admitted events each of two names are flagged |
| EventForwarder.FloodFreeIffOneName | security_monitor/event_forwarder.py:14-36 | the limiter keeps the monitor under the flood threshold exactly when it serves fewer than two names |
| Correlator.Correlator.Inspect | risk_engine/correlation.py:74-86 | the in-place cross-node check: window, distinct nodes against the threshold, factor |
| Correlator.Correlator.RecordThreat | risk_engine/correlation.py:90-93 | one more signal at the end of the node's queue |
| Correlator.Correlator.CheckMultiSignal | risk_engine/correlation.py:95-131 | the rule scan is evaluated before, and the queue then pruned at, the widest window |
| Correlator.Correlator.WarmRestart | risk_engine/correlation.py:135-157 | the windows afterwards are a function of the rows alone, whatever was there before: reloading twice is reloading once |
| Correlator.CheckIsFullHistory | risk_engine/correlation.py:68-86 | a check correlates iff enough distinct nodes fired the rule in the closed window of the full history, this firing included |
| Correlator.ReloadAgrees | risk_engine/correlation.py:135-157 | reloaded windows stand for the whole log when the rows left out are older than the window |
| Correlator.LoadedIff | risk_engine/correlation.py:135-157 | for any rows, readable or not, a reload holds exactly one kind of entry for each rule of each row whose rule column parses: its node, at its time, or as new if that does not parse |
| Correlator.WarmRestartEqualsNoRestart | risk_engine/correlation.py:135-157 | every later check, after any later checks, is answered as in the uninterrupted process |
| Correlator.EvaluateIsFinding | risk_engine/correlation.py:100-131 | flagged iff some rule's types all occurred within that rule's window; the multiplier is the maximum over those rules and at least 1; the label is the last one's in table order |
| Correlator.MultiSignalIsFullHistory | risk_engine/correlation.py:90-131 | over any interleaving of records and evaluations, pruning at the widest window never changes a finding |
| Correlator.LabelOfAnotherRule | risk_engine/correlation.py:30-45 | on the shipped table four signals give multiplier 3.0 under the label of the rule with 2.0 |
| Correlator.LabelFitsIff | risk_engine/correlation.py:113-117 | the label is that of a firing rule with the reported multiplier iff no firing rule has a larger multiplier than the last one |
| Correlator.RestartLosesIff | risk_engine/correlation.py:90-141 | for a process restarted between two stretches of operations: the one that kept on has a finding iff some rule's types were all recorded in its window in either stretch, the restarted one iff all in the second; the restarted multiplier is never larger |
| Correlator.RestartConverges | risk_engine/correlation.py:124-129 | once the first stretch is older than the widest window, both give the same finding |
| Correlator.RestartForgetsSignals | risk_engine/correlation.py:30-32 | on the shipped table a reverse shell before and a network threat after the restart: found by one process, not by the other |
| Rules.RuleEngine.Load | risk_engine/rules.py:24-32 | a file that does not load leaves the rules in place |
| Rules.RuleEngine.Match | risk_engine/rules.py:50-63 | the matches of all rules over the joined reasons, in table order |
| Rules.MatchedIff | risk_engine/rules.py:54-62 | a match is reported iff it is that of a rule whose nonempty substring occurs in the text |
| Rules.ReportedIff | risk_engine/rules.py:50-63 | a match is reported iff it is that of a rule, with its id, severity and blast radius, whose substring is not empty and stands somewhere in the text |
| Rules.JoinedIff | risk_engine/rules.py:50-63 | a substring without a blank occurs in the joined reasons iff it occurs in one of them; two reasons meet at a single blank |
| Rules.MoreReasonsMoreMatches | risk_engine/rules.py:50-63 | appending reasons never loses a match |
| Pipeline.Pipeline.Run | risk_engine/pipeline.py:28-76 | one event: decision and both correlation tables afterwards |
| Pipeline.CheckAllIsAny | risk_engine/pipeline.py:39-47 | the per-match loop flags and multiplies iff some match correlates against the windows before the loop; order and repetition of matches do not matter |
| Pipeline.MultiplierMonotone | risk_engine/pipeline.py:39-57 | appending reasons never lowers the multiplier, which is at least 1 |
| Pipeline.ReasonMonotonicity | risk_engine/pipeline.py:36-65 | from one state, appending reasons never lowers matches, multiplier, event score, cumulative score or bucket |
| PipelineHistory.TablesAreHistory | risk_engine/pipeline.py:36-53 | over any feed of events the signals table is the correlator's after recording each event's type unless it is NORMAL and evaluating each event's node, and the windows are those after one check per match |
| PipelineHistory.DecisionIsHistory | risk_engine/pipeline.py:28-76 | after any feed in order, an event is correlated iff a rule it matches fired on enough distinct nodes in the window or the types of its node's events, its own included, complete a multi-signal rule in that rule's window; its multiplier is the largest that applies; the last completed rule's title is the added reason |
| HistoryRuns.DeploymentTamperRun | risk_engine/pipeline.py:49-60 | from an empty database an image mismatch and a second later a runtime drift on node1, whatever rules and reasons: multiplier 2.0, correlated, and the reason Multi-signal: Deployment Tamper |
| Scoring.RoundNear | risk_engine/scoring.py:43-59 | rounding moves a value by at most 0.00005 onto the grid of 0.0001 |
| Scoring.RoundTies | risk_engine/scoring.py:43-59 | halfway between two grid points the even one is taken |
| Scoring.RoundMonotone | risk_engine/scoring.py:43-59 | rounding is monotone |
| Scoring.RoundFixesGrid | risk_engine/scoring.py:43-59 | rounding leaves a value alone iff it is on the grid |
| Scoring.MaxWeightBounds | risk_engine/scoring.py:46-50 | the weight taken is that of one match and not below that of any |
| Scoring.ScoredBy | risk_engine/scoring.py:28-59 | with matches the recorded score is the rounded product of the multiplier and the largest severity * blast radius * criticality / 1000, the criticality being the listed one or else the default; the stored score is the old one plus that, rounded; the bucket is that of the unrounded sum |
| HistoryRuns.UnlistedNodeRun | risk_engine/config/master_config.yaml:41-46 | from an empty database, under the shipped configuration and rules, a changed configuration file reported by host-observer, which is not listed, is scored 7.7 |
| Scoring.BucketMonotone | risk_engine/scoring.py:61-71 | with increasing bounds a higher score never gets a lower bucket |
| Scoring.ScoreMonotone | risk_engine/scoring.py:28-59 | more matches and a larger multiplier never lower event score, stored score or bucket, the step from no match to some included |
| Scoring.AuditBound | risk_engine/scoring.py:45-59 | over n matching events the stored change is within n * 0.0001 of the recorded event scores and n * 0.00005 of the unrounded ones |
| Scoring.CleanRun | risk_engine/scoring.py:35-43 | from below 71, n clean events leave max(0, s - n * decay) |
| Scoring.CleanRunReachesZero | risk_engine/scoring.py:35-43 | zero is reached exactly from n >= s / decay on |
| Scoring.DecayExactIff | risk_engine/scoring.py:41-43 | a decay takes full effect iff the rate is a multiple of 0.0001 |
| Scoring.TinyRateNeverDecays | risk_engine/scoring.py:41-43 | any rate under 0.00005 leaves any stored score where it is over any number of clean events |
| Scoring.CleanKeepsIff | risk_engine/scoring.py:35-43 | a clean event leaves a score alone exactly at zero and from 71 up |
| Store.Store.WriteEvent | risk_engine/store.py:205-267 | event row, node score and watermark change together and nothing else does |
| Store.Store.GetNodeScore | risk_engine/store.py:184-188 | the stored score, or zero |
| Store.Store.GetNodeStatus | risk_engine/store.py:199-203 | the stored status, or idle |
| Store.Store.UpdateNodeStatus | risk_engine/store.py:269-293 | only that node's status row changes |
| Store.Store.ResetNodeScore | risk_engine/store.py:307-316 | only that node's score changes, to zero |
| Store.Store.WriteHeartbeatEvent | risk_engine/store.py:334-353 | an unscored row and an unresponsive status; scores and watermark stay |
| Store.Store.ResetAllTables | risk_engine/store.py:318-332 | everything empty, watermark zero |
| Store.QueryIsSuffix | risk_engine/store.py:355-362 | the restart query, which compares a stored "T" with a space and so admits the cutoff's whole day, returns a suffix of the scored rows, and all it leaves out is older than the window |
| RiskEngine.Engine.constructor | risk_engine/engine.py:110-131 | a start on an existing database: windows reloaded from the restart query, watermark read back, nothing else remembered |
| RiskEngine.Engine.Receive | risk_engine/engine.py:159-232 | one event: validation, watermark, scoring from the stored score, commit, status from the bucket, quarantine; and what is left when pipeline, commit or status write raises |
| RiskEngine.Engine.SettleStatus | risk_engine/engine.py:200-226 | after the commit: status from the bucket, then quarantine by bucket or by critical alert if the container stops |
| NodeLife.EventStatus | risk_engine/engine.py:200-226 | under the shipped buckets an event leaves one status row: quarantined with zero if the unrounded score is above 100 or a critical alert is raised, and the container stops; otherwise quarantined above 100, up for review above 70, and else busy or idle as the message says, with the rounded score |
| NodeLife.StatusIsItsOwn | risk_engine/store.py:269-293 | over any steps about other nodes, engine crashes included, a node's status row stays as it is |
| NodeLife.AcceptedAgainIff | risk_engine/engine.py:173-198 | an accepted event is still acceptable afterwards iff its processing or its commit failed, and then database and watermarks are untouched; otherwise its row is written and both watermarks stand at its offset |
| RiskEngine.Engine.QuarantineNode | risk_engine/router.py:166-193 | a quarantine that succeeds writes status and a zero in the status row, and leaves the node's score |
| RiskEngine.Engine.CheckHeartbeat | risk_engine/engine.py:79-105 | one node of the heartbeat pass, its write or its alerting failing or not; which nodes it may touch is `NodeLife.HeartbeatActsIff` |
| NodeLife.HeartbeatActsIff | risk_engine/engine.py:79-105 | after any run a heartbeat pass changes the database iff the node is idle or busy and more than 90 seconds have passed since its last accepted event in this process lifetime, taken from the run's actions; it then adds one unscored row and leaves the node quarantined, or unresponsive if alerting fails |
| NodeLife.HeartbeatsSpare | risk_engine/engine.py:80-82 | over heartbeats alone a node that awaits approval, or is quarantined or unresponsive, keeps its status |
| NodeLife.SilentReviewRun | risk_engine/engine.py:80-82 | node1, put up for review by twenty-one replay alerts and silent since, still awaits approval after a heartbeat pass at 112 s, and can be approved |
| RiskEngine.Engine.ApproveNode | risk_engine/cmd_server.py:37-74 | refused unless awaiting approval; otherwise idle with a zero score, unless the container call raises (nothing changes) or the status write does (only the score is zeroed) |
| RiskEngine.Engine.RestartNode | risk_engine/cmd_server.py:76-110 | refused unless quarantined or unresponsive; otherwise idle with a zero score, with the same two failures |
| RiskEngine.Engine.DenyNode | risk_engine/cmd_server.py:112-152 | refused unless awaiting approval, idle or busy; otherwise quarantined with its score kept |
| NodeLife.CommandsActIff | risk_engine/cmd_server.py:37-152 | approve changes the database iff the node awaits approval, restart iff it is quarantined or unresponsive, deny iff it is neither of these two; the first two leave it idle with zero scores, deny quarantined with its score in the status row |
| NodeLife.FailedCommands | risk_engine/cmd_server.py:66-110 | a command whose container call fails changes nothing; one whose status write is lost has zeroed the score and nothing else |
| RiskEngine.Engine.ResetSystem | risk_engine/cmd_server.py:154-163 | tables, watermark and last-seen times cleared, correlation tables not |
| RiskEngine.NextKeeps | risk_engine/engine.py:195-226 | every step, engine crashes included and under whatever rules are then in force, keeps scores nonnegative and on the grid; keeps a node above 100 quarantined unless that node's own status write is lost; and no step but a release lowers a score of 71 or more |
| RiskEngine.ScoreLatches | risk_engine/scoring.py:35-43 | over any steps that do not release the node, failures and rule reloads included, a stored score of 71 or more never falls |
| RiskEngine.QuarantineLatch | risk_engine/cmd_server.py:37-194 | in every state reachable without a lost status write of this node, engine crashes and whatever happens to other nodes included, a score above 100 means quarantined, approve and deny are refused, and it leaves only by restart or reset, which zero the score |
| RiskEngine.StatusLossHoldsIff | risk_engine/engine.py:197-232 | when the status write raises or the engine dies before it, the latch holds afterwards iff the node was already quarantined or the unrounded score its event leads to is at most 100.00005 |
| LatchRuns.StatusLossRun | risk_engine/engine.py:197-232 | from an empty database, under the shipped rules, a replay alert with a failing status write, or a crash before it, leaves node4 at 112.5 and idle; after the crash the watermark is past the event |
| RiskEngine.EventQuarantinesIff | risk_engine/engine.py:200-226 | an event leaves its node quarantined exactly if it lands in critical, or a critical alert stops the container |
| RiskEngine.CleanEvent | risk_engine/engine.py:195-212 | status and score after a clean event under the shipped buckets, for every stored score |
| RiskEngine.ReviewSurvivesIff | risk_engine/scoring.py:36-41 | after a clean event a node awaiting approval still awaits it, or is quarantined, iff its score is at least 71 |
| RiskEngine.ReviewLostBelowLatch | risk_engine/config/master_config.yaml:49-56 | 70.5 is in the high bucket and decays to 65.5 in medium |
| LatchRuns.ReviewLostRun | risk_engine/scoring.py:36-41 | from an empty database, under the shipped rules, twenty-one replay alerts put node1 at 70.875 and up for review; its next clean telemetry ends it at 65.875 and idle |
| LatchRuns.ReplaysScore | risk_engine/config/master_config.yaml:49-56 | n replay alerts in a row, one a second under the shipped rules, leave node1 at n * 3.375 |
| RiskEngine.QuarantineSurvivesIff | risk_engine/engine.py:200-212 | a quarantine lasts against a clean event exactly above 100 |
| LatchRuns.QuarantineLostRun | risk_engine/engine.py:93-102 | from an empty database a silent node and a denied node are quarantined, and each is idle after one clean event |
| RiskEngine.NextAudited | risk_engine/store.py:244-262 | every step in which the node accumulates or is not concerned changes its stored score by its recorded event score within 0.0001 and by its unrounded one within 0.00005 |
| RiskEngine.ScoreIsAudited | risk_engine/enrichment.py:10-13 | over any steps in which the node is not released and its events match, crashes and failures included, its stored score has changed by the sum of its recorded event scores within 0.0001 per row, and by the sum of its unrounded ones within 0.00005 per row |
| RiskEngine.QuietRunDecays | risk_engine/scoring.py:35-43 | over any steps of the engine in which the node is not released and its events match nothing, n committed ones leave max(0, s - n * decay) of a score s below 71 |
| EngineHistory.EngineFeeds | risk_engine/engine.py:195-198 | over any run the engine's multi-signal table, and while it does not crash both tables, are the pipeline's on the events processed since it started, failing commits included |
| EngineHistory.RowIsHistory | risk_engine/store.py:205-267 | after any run without a crash an accepted event is written with its node and receipt time, the correlation flag and multiplier of the whole history, the score that multiplier gives on the heaviest match, its bucket, and the ids of exactly the rules that matched |
| EngineRestart.RunStands | risk_engine/engine.py:195-198 | over any actions, engine crashes included, without a reset or failing commit, the engine's windows stand for its whole log, and the log is in time order; each row's receipt time is taken to be the time of its check |
| EngineRestart.EngineRestartAgrees | risk_engine/engine.py:112-114 | an engine started on the database such a run left answers every later cross-node check, after any later checks, as the engine that ran on |
| EngineRestart.RunningAnswer | risk_engine/correlation.py:74-86 | over any actions, resets and failures included, the running engine correlates by all the checks it ever made |
| EngineRestart.StartedAnswer | risk_engine/store.py:355-362 | over any log in time order a started engine correlates by what the log holds |
| EngineRestart.StartedHolds | risk_engine/engine.py:110-131 | a started engine's windows hold, for each scored row from the day of ten minutes ago on, each of its rules with its node and time, and nothing else; signals and last-seen times are empty |
| EngineRestart.RestartChangesIff | risk_engine/correlation.py:135-157 | in one lifetime, resets and failing commits included, and with stored receipt times equal to check times, running and restarted engine disagree about a check exactly if the nodes checked in the window reach the threshold with this one and those in the log do not, or the other way round |
| RestartRuns.ResetForgetsRun | risk_engine/cmd_server.py:154-163 | from an empty database: two nodes fire a rule, a reset, a third node fires; the running engine correlates it and a restarted one does not |
| RestartRuns.FailedCommitForgetsRun | risk_engine/engine.py:195-232 | the same without a reset, when the second node's commit fails |
| ThreatCorrelator.ThreatCorrelator.Take | security_monitor/threat_correlator.py:62-146 | one event: history and output afterwards, for every source |
| ThreatCorrelator.BlamedNode | security_monitor/threat_correlator.py:96-114 | a Suricata or Zeek event is blamed on the tenant its source maps to, whatever its destination; failing that on its destination's; failing both on the monitor; a Falco event on the tenant or monitor it names, and otherwise by its source alone |
| ThreatCorrelator.HistoryAgrees | security_monitor/threat_correlator.py:65-75 | after any ordered stream a node's queue stands for all its Docker events |
| ThreatCorrelator.NearbyIsNonempty | security_monitor/threat_correlator.py:117-126 | the ten-second query over the history is nonempty iff a Docker event of the node was taken in that time |
| ThreatCorrelator.JoinIsFullHistory | security_monitor/threat_correlator.py:94-146 | a network or Falco event becomes one record, critical by correlation iff a Docker event of its node was taken within ten seconds, with exactly those events, in order, as evidence |
| ThreatCorrelator.RecordSays | security_monitor/threat_correlator.py:131-146 | type, severity and description of the record, with the defaults for what the event leaves out and the escalation if correlated |
| ThreatCorrelator.DirectIff | security_monitor/threat_correlator.py:78-92 | a Docker event is passed on at once iff its threat type is one of five, as HIGH, uncorrelated, under its own node |
| ThreatCorrelator.OthersIgnored | security_monitor/threat_correlator.py:62-94 | an event of any other source is passed on as nothing and remembered nowhere; only Docker events are remembered |
| PolicyEngine.PolicyEngine.Evaluate | security_monitor/policy_engine.py:100-111 | the policy loop selects by first match |
| PolicyEngine.PolicyEngine.Drain | security_monitor/policy_engine.py:88-117 | every waiting record passes on once and in order, and the actions requested are those of the records' first matches, in order |
| PolicyEngine.SelectIsFirst | security_monitor/policy_engine.py:102-111 | the action is that of the first row that matches, and there is none when no row does |
| PolicyEngine.CriticalFirst | security_monitor/policy_engine.py:102-111 | in any table with only quarantine above a row for all critical records, critical means quarantine |
| PolicyEngine.CriticalQuarantines | risk_engine/config/fast_path_policy.yaml:18-36 | both the shipped and the built-in table quarantine every critical record |
| PolicyEngine.QuarantineSelectedIff | risk_engine/config/fast_path_policy.yaml:18-60 | the shipped table selects quarantine for critical records and four threat types, and for nothing else |
| PolicyEngine.ShippedSelects | risk_engine/config/fast_path_policy.yaml:18-60 | below critical the shipped table pauses for two threat types and isolates for three, and does neither for any other |
| PolicyEngine.FallbackSelects | security_monitor/policy_engine.py:34-42 | below critical the built-in table quarantines three threat types, pauses for one, isolates for one, and does nothing else |
| PolicyEngine.EnforcedIff | security_monitor/policy_engine.py:52-59 | an action is requested iff a row matches and the record is about a node other than the monitor or an unknown one |
| PolicyEngine.CorrelatedIsQuarantined | security_monitor/policy_engine.py:52-67 | a network or Falco event with a Docker event of its node within ten seconds has that node quarantined, unless it resolves to the monitor itself |
| PolicyEngine.AttackerIsQuarantined | security_monitor/threat_correlator.py:109-111 | an attack from one tenant on another, with a Docker event of the source nearby, has the source quarantined |
| BeaconDetector.DetectBeaconing | scripts/beaconing_detector.py:49-101 | grouping and alert loops: the alerts, in order of first appearance of their pairs, and an alert is listed iff it is its pair's verdict |
| BeaconDetector.GroupByPair | scripts/beaconing_detector.py:53-73 | the grouping loop: pairs by first appearance, each with its times and byte counts in input order |
| BeaconDetector.ReportedExactly | scripts/beaconing_detector.py:75-101 | no pair is missed, none is reported that has no record |
| BeaconDetector.ReportedIff | scripts/beaconing_detector.py:76-88 | a pair is reported iff it has more than ten connections and gap variance below 25; the two other guards never decide |
| BeaconDetector.AlertSays | scripts/beaconing_detector.py:75-101 | an alert counts its pair's records, gives the mean of their byte counts and the variance of their gaps, and flags low bandwidth iff the mean is below 1024 |
| BeaconDetector.GapAt | scripts/beaconing_detector.py:79-80 | each gap is the difference of two neighbouring arrival times in order |
| BeaconDetector.OrderIrrelevant | scripts/beaconing_detector.py:53-101 | two inputs with the same multiset of records give the same verdict for every pair |
| BeaconDetector.MeanMinimises | scripts/beaconing_detector.py:85 | no point has a smaller sum of squared distances to the gaps than their mean |
| BeaconDetector.VarianceBound | scripts/beaconing_detector.py:85 | population deviation is at most half the range |
| BeaconDetector.BeaconReported | scripts/beaconing_detector.py:76-99 | any pair with more than ten connections whose gaps lie in an interval narrower than ten seconds is reported |

## Left out

- Floating point: times, scores and byte counts are exact reals; `round(x, 4)` is half-even rounding of the exact value.
- Several clock readings inside one step (for instance `controller/controller.py:118`, `:163` and `:339`) are one reading; a clock that runs backwards is outside the stream theorems.
- HMAC-SHA256 (section 2 of RFC 2104) and canonical JSON: an uninterpreted function of secret and message; forging is not excluded, only not assumed away.
- A replay window of zero entries, with which the guard pops from an empty queue and the controller dies: excluded by `Limits.Usable`.
- Messages whose fields have the wrong type (a list as node name, a string as sequence number), and digests with characters outside ASCII, on which `hmac.compare_digest` raises: the source raises outside any handler and the controller dies, where the model sends a tamper alert for such a digest.
- A list as event type, which the controller never reads and passes on: the engine records it as a signal before it raises (`risk_engine/correlation.py:93`), and every later multi-signal evaluation of that node raises too (`risk_engine/correlation.py:108-112`) until the engine restarts. Event types are strings here.
- Unreadable offset, blacklist, allowlist and rule files: a start takes the values the loaders return, which for a failed read are 0, the empty set, no restriction and the rules held before.
- Interleavings with the inside of one engine step before its commit: heartbeats, commands and resets fall between steps or, in `Delivery`, between a commit and what follows it; SQLite transactions left open by a failed statement.
- RiskEngine.Engine.Receive: an exception in `emit_from_event`, which stands outside the try block, ends the process before anything is written; that is the step `OnCrash`, not a case of this method.
- EngineRestart.RunStands: takes the receipt time stored with a row to be the time of its check (`Dated`); in the source the controller stamps the one (`controller/controller.py:394`) and the engine reads the clock for the other, so a message's transit time is not modelled here.
- EngineRestart.RestartChangesIff: the same; `StartedAnswer` takes any stored times that are in order.
- EngineRestart.EngineRestartAgrees: excludes resets and failing commits, for which `RestartChangesIff` says when the answers differ.
- Containers, networks, iptables, isolated addresses, forensics and alert text: whether a container call succeeds is an argument of the step.
- Threat detectors: whether one raises a critical alert is part of the event.
- BeaconDetector.DetectBeaconing: compares variance with 25 instead of its square root with 5, reports the variance, and records the low-bandwidth sentence as a flag; reading fields and timestamps out of raw log records is not modelled.
- ThreatCorrelator.ThreatCorrelator.Take: the address map is an argument, so its five-second cache and the container listing behind it are not modelled.
- PolicyEngine.PolicyEngine.Drain: the endless loop is a drain of what is waiting, and an enforcement is a request; without a Docker client nothing happens to the container. An audit log that cannot be written is not a case: the source writes it again inside the except branch (`security_monitor/policy_engine.py:84-86`), and that second failure ends the thread before the record is passed on.
- Store.Store.WriteEvent: telemetry columns, file-integrity columns and the seven-day incident count are not modelled, nothing here reads them.
- The node list and sleep of the heartbeat thread: the pass over one node is modelled, for any node name.
- Snapshots, dashboards, reports, simulator, remediation playbooks, configuration checks, and the two further sliding windows in the Docker collector and the threat detector, which are instances of `SlidingWindow`.
