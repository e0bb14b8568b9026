# A verified model of the endpoint-response system

The repository holds an agent (Python on Linux, C++ on Windows) that watches a
host and can cut it off from the network, a manager that stores what agents
report and sends them commands, and a web page that shows it.  This project
models the parts of it that are hard to get right and proves what they do, for
all inputs and over all runs.

| file | what it models |
|---|---|
| `Firewall.dfy` | the iptables scripts of isolate and release, with runs that are refused or raise |
| `Records.dfy` | the manager's agent and command records and their life cycles |
| `Manager.dfy` | one turn of the manager's socket endpoint: a message, a transaction, a reply |
| `Protocol.dfy` | agent, manager and socket as one state machine with timeouts and failures |
| `RequestReply.dfy`, `Delivery.dfy`, `Containment.dfy` | what holds over every run of it: which reply answers what, where each command is, whether the manager's containment flag is true of the host |
| `Responses.dfy`, `Outcomes.dfy` | over every run too: which word moves which response action, and how containment commands end |
| `Json.dfy`, `WindowsAgent.dfy`, `ProcessStore.dfy` | a JSON reader and printer, the C++ agent's printers, and the manager's process table |
| `Dns.dfy` | the DNS sniffer: frames, names, types, its bounded buffer |
| `Fim.dfy` | the file integrity monitor and its alerts |
| `AuthLog.dfy` | the authentication log tailer |
| `FlowStats.dfy` | network counters, their differences, and the rows they become |
| `Beacon.dfy` | beacon detection by the deviation of intervals |
| `Suspicious.dfy` | the deduplicated list of suspicious connections |
| `ProcessTree.dfy`, `AgentList.dfy`, `KillTree.dfy` | removing and focusing nodes of the process tree, one agent for each host, killing a family bottom-up |
| `Options.dfy`, `Sequences.dfy` | an option type and facts about sequences |

Code that changes state in place is modelled by classes and loops, each proved
against a function or relation on values; the laws are about those.  Where a law
the code is meant to keep fails, there is a lemma that says exactly when it holds
and usually one with a run on which it does not.

What was found along the way:

- A reply that arrives after its timeout, or an error the manager sends for a
  message nobody waits on, shifts every later reply of the connection by one, for
  good (`agent/agent.py:485-498` matches replies by order alone, and
  `manager/app/websocket/agent_ws.py:544-551` answers every failure).
- The agent's isolate and release handlers report a failure as `error`
  (`agent/commands/isolate.py:44-45`), which is not one of the manager's command
  statuses (`manager/app/schemas/enums.py:17-22`).  The acknowledgement is
  refused, and the command shows as sent for ever.
- So a failed isolation is never shown as failed and never retried, though the
  retry counter is there for it.
- The iptables runs are issued with `check=False`, so a host whose kernel refuses
  them all reports success and is shown as isolated.
- An acknowledgement that says `pending` is accepted and asks for another delivery
  without using up a retry.
- `get_recent_queries` is documented as flushing the buffer
  (`agent/dns_sniffer.py:136`) and does not; the model follows the code.
- The log tailer keeps its position when it switches files, and does not see a
  replacement that is not shorter than what it had read.
- A rollback, which the scheduler starts by itself after five minutes, clears the
  containment flag at once, while the host stays cut off until the release it
  queues has been carried out.  An operator's quarantine sets the flag and never
  touches the firewall.
- An edit over the REST interface sets status and flag apart, and an agent can be
  registered as isolated with the flag clear.
- The suspicious list fetches the newest flows before it looks for suspicious
  ones, so a quiet suspicious connection can be crowded out.

## Model

| member | source | states |
|---|---|---|
| `Firewall.IsolateResult` | agent/commands/isolate.py:17-36 | for any starting table and any mix of obeyed, refused and raising runs, the exact policy and rules left in each built-in chain, and whether the script completes |
| `Firewall.IsolateReplacesTable` | agent/commands/isolate.py:17-36 | when every run is obeyed the result does not depend on the table found, so isolating twice is isolating once |
| `Firewall.IsolatedTableConfines` | agent/commands/isolate.py:17-36 | the isolated table lets in exactly the manager's packets, out exactly packets to it, and forwards none |
| `Firewall.IsolateConfinesExactlyWhen` | agent/commands/isolate.py:17-36 | from every starting table the host ends confined to the manager, if and only if the flush and the three policy runs were made, before any raised, and obeyed |
| `Firewall.IsolateReachesExactlyWhen` | agent/commands/isolate.py:17-36 | from every starting table the manager stays reachable, if and only if the flush and the two accept rules were made and obeyed |
| `Firewall.ReleaseNeverShutsOutExactlyWhen` | agent/commands/unisolate.py:29-36 | from every starting table each step of a release lets through at least what the step before did, if and only if the flush does not run under a refused policy |
| `Firewall.ReleaseResult` | agent/commands/unisolate.py:29-36 | for any starting table and any mix of outcomes, the exact policy and rules a release leaves in each built-in chain |
| `Firewall.ReleaseOpensExactlyWhen` | agent/commands/unisolate.py:29-36 | from every starting table a release ends with everything accepted, if and only if the three policy runs and the flush were made and obeyed |
| `Firewall.DeleteChainsIsNeutral` | agent/commands/unisolate.py:29-36 | deleting the user chains changes the fate of no packet |
| `Firewall.UntouchedChangesNothing` | agent/commands/isolate.py:17-36 | a script of which no run was obeyed, whether refused or cut short by an exception, leaves the table alone |
| `Firewall.Host.Run` | agent/commands/isolate.py:17-36 | running a script in place gives the table and completion of its step-by-step meaning, stopping at the first run that raises |
| `Firewall.Host.Isolate` | agent/commands/isolate.py:8-45 | the table and the reported success for every mix of outcomes; the marker exists afterwards only if it did before or success was reported |
| `Firewall.Host.Unisolate` | agent/commands/unisolate.py:21-54 | the table and the reported success for every mix of outcomes; the marker goes only on success, and only if it can be removed |
| `Records.Agent.UpdateHeartbeat` | manager/app/models/agent.py:30-44 | every field afterwards: metrics taken, missing addresses kept, a dead or inactive agent made active unless isolated, any other status kept |
| `Records.BeatRevives` | manager/app/models/agent.py:30-44 | after any events a heartbeat leaves no unisolated agent dead or inactive: it makes such a one active, and keeps every other status and the flag |
| `Records.DeadExactlyWhen` | manager/app/models/agent.py:26-54 | over any events an agent shows as dead, if and only if a sweep that found it active or isolated and unheard of, or an edit, declared it so, and since then nobody decided otherwise and no heartbeat came while its flag was clear |
| `Records.StatusIsLastWord` | manager/app/models/agent.py:26-54 | over any events the status is the last one anyone gave, as sweeps and heartbeats left it |
| `Records.Agent.Edit` | manager/app/repositories/base.py:51-70 | an edit sets status and flag apart and keeps what it leaves out |
| `Records.FlagIsLastDecision` | manager/app/models/agent.py:26-54 | over any sequence of heartbeats, sweeps, confirmed and hand-made quarantines, releases, edits and decisions, the containment flag is the last value anyone gave it; no heartbeat, sweep or confirmed quarantine changes it |
| `Records.ClashExactlyWhenEdited` | manager/app/routers/v1/agent_router.py:63-67 | over any such sequence the status shown clashes with the flag, if and only if the last event to settle the two or edit them was an edit that made them clash, or they clashed from the start |
| `Records.StatusEditClashes` | manager/app/routers/v1/agent_router.py:63-67 | for every isolated agent, an edit of the status to active shows it as active with the flag set, through any number of heartbeats |
| `Records.IsolatedDeadStaysDead` | manager/app/models/agent.py:30-44 | an isolated agent swept as dead stays isolated and shows as dead through any heartbeats and sweeps |
| `Records.Command.Retry` | manager/app/models/command.py:40-48 | the whole row afterwards and whether a retry was left |
| `Records.Command.VerifyExecution` | manager/app/services/core/command_dispatcher.py:41-57 | the whole row after an acknowledgement: a failure goes on to a retry |
| `Records.DeliveriesBounded` | manager/app/models/command.py:30-48 | over any sequence of pulls and acknowledgements none of which says pending, a command is sent at most once more than it is retried, and retries stay within their maximum |
| `Records.DeliveriesReached` | manager/app/models/command.py:30-48 | the bound is met for every maximum: an agent that always fails is asked once more than the maximum, and the command ends failed |
| `Records.PendingAcksAreUnbounded` | manager/app/services/core/command_dispatcher.py:41-57 | without that condition there is no bound: any number of deliveries with no retry used |
| `Manager.Latest` | manager/app/websocket/agent_ws.py:352-416 | the youngest waiting action of a kind, or none exactly when none waits |
| `Manager.Endpoint.PullPending` | manager/app/services/core/command_dispatcher.py:30-39 | in whatever order the pending commands are listed, exactly they are marked as sent, and each becomes one job of the batch |
| `Manager.Endpoint.Acknowledge` | manager/app/websocket/agent_ws.py:352-416 | after an acknowledgement of each status: the named action, or only without one the youngest of the kind that waits, is the one action changed, and only a success is put on record; the command is answered or retried; the agent changes on a success about containment or quarantine |
| `Manager.Endpoint.RollbackAction` | manager/app/services/response/rollback_service.py:46-143 | an action is undone exactly when it is applied; undoing restores the agent, marks the action as reverted and queues the command that undoes it on the host, each spelled out by kind |
| `Manager.Endpoint.Process` | manager/app/websocket/agent_ws.py:506-555 | one turn of the endpoint commits or rolls back as a whole: what each kind of message makes of the agent, the commands, the actions and the record, and the reply, if any, that outcome calls for |
| `RequestReply.ReplyAnswersRequestExactlyWhen` | agent/agent.py:485-508 | over every run, the reply about to be read answers the request waited for, if and only if nothing older than that request was lost |
| `RequestReply.LostExactlyWhenDisturbed` | agent/agent.py:485-508 | over every run, nothing is lost if and only if no request timed out and no unwaited message failed |
| `RequestReply.UndisturbedRunsPairUp` | agent/agent.py:485-508 | in every run without such steps at most one answer is owed, the lock is held exactly while one is, and every reply read answers the request just sent |
| `RequestReply.ShiftNeverHeals` | agent/agent.py:485-498 | after one loss, no request sent later on the connection ever reads its own answer, however the run continues |
| `RequestReply.RunKeeps` | agent/agent.py:485-508 | the inductive invariant of all interleavings: message numbers are ordered along both queues and the answers owed balance the messages lost |
| `RequestReply.RunKeepsKinds` | manager/app/websocket/agent_ws.py:528-543 | over every run, the answer on its way to the request waited for is of that request's kind or an error |
| `RequestReply.LateReplyIsMisread` | agent/agent.py:485-498 | a run in which a reply that comes after its timeout is taken for the answer to the next request |
| `RequestReply.UnaskedErrorIsMisread` | manager/app/websocket/agent_ws.py:544-551 | a run in which the error for an unwaited message is taken for the answer to a heartbeat |
| `Delivery.EveryRunSettles` | agent/agent.py:520-549 | the inductive invariant of all interleavings: for each command, where it is, how often it was sent, retried and carried out |
| `Delivery.AtMostOncePerSend` | agent/agent.py:520-549 | over every run, a command is carried out at most once for each send and sent at most once more than its retries; it shows as sent if and only if it is in exactly one place on its way, or orphaned |
| `Delivery.OrphansStaySent` | manager/app/websocket/agent_ws.py:352-416 | over every continuation of every run, an orphaned command shows as sent, and is never sent, retried or carried out again |
| `Delivery.NoneOrphanedExactlyWhen` | agent/agent.py:520-549 | over every run, no command is orphaned, if and only if no batch was given up, no acknowledgement refused and no batch read as the answer to an acknowledgement |
| `Delivery.NothingStrandedExactlyWhen` | agent/agent.py:520-549 | over every run, the commands shown as sent are exactly those on their way or in hand, if and only if none of these steps was taken |
| `Delivery.MisreadOnlyWhenDisturbed` | agent/agent.py:485-498 | a batch is read as the answer to an acknowledgement only after a timeout or an unwaited message that failed |
| `Delivery.SmoothRunsStrandNothing` | agent/agent.py:520-549 | on an undisturbed connection without given-up batches and refused acknowledgements no command is orphaned |
| `Delivery.UnknownStatusOrphans` | manager/app/schemas/command_ack.py:8-12 | in every reachable state, an acknowledgement with a status outside the schema changes no table, is answered with an error and orphans its command |
| `Delivery.AppliedOnlyOnSuccess` | manager/app/websocket/agent_ws.py:384-408 | over every run, an action shown as applied has a successful command that names it or is of its kind, and an audit entry |
| `Responses.StepMoves` | manager/app/websocket/agent_ws.py:361-413 | no step changes an action but an acknowledgement that speaks for it, which settles it, and a rollback of it |
| `Responses.StatusIsLastWord` | manager/app/websocket/agent_ws.py:361-413 | over every run the status of an action is what the last step about it said |
| `Responses.SpokenForExactlyWhen` | manager/app/services/response/response_action_service.py:111-163 | over every run an acknowledgement speaks for an action nobody issued commands for, if and only if it is about the command made with the action, or about one that names no action while the action is the youngest of its kind to wait |
| `Responses.AppliedOnOwnWord` | manager/app/websocket/agent_ws.py:361-381 | over every run in which all acknowledgements name an action, every application on record is by the command made with the action |
| `Outcomes.ContainmentNeverFails` | agent/commands/isolate.py:42-45 | over every run a command to isolate, release or quarantine is never shown as failed, never retried and sent at most once, however it went on the host; an auto_isolate command never even succeeds |
| `Containment.CandidExactlyWhen` | agent/commands/isolate.py:17-45 | an execution keeps every flag that fits the host fitting, on every host, if and only if its report is candid, a condition on the fate of its runs alone: success means that the runs that matter were obeyed, failure that none was |
| `Containment.StepAccounts` | manager/app/websocket/agent_ws.py:384-408 | what every step does to the flag, brought up to date with what is on the way: an execution applies its report, and anything else turns the flag exactly when it writes it, or drops news of it, with nothing on the way to set it right |
| `Containment.FlagIsLastRunUnlessTurned` | manager/app/websocket/agent_ws.py:384-408 | over every run without any condition, the flag brought up to date tells the last successful containment execution, if and only if it was turned an even number of times since |
| `Containment.HostIsLastRun` | agent/agent.py:510-518 | over every run, with candid executions since the last successful one about containment, the host is where that one put it |
| `Containment.FlagFitsHost` | manager/app/websocket/agent_ws.py:384-408 | over every run, through losses, failures, edits, rollbacks and orders of operators, a flag not so turned is the state of the host |
| `Containment.FlagFitsHostExactlyWhen` | manager/app/websocket/agent_ws.py:384-408 | on a host that starts open the flag, brought up to date, is the state of the host, if and only if it is not so turned |
| `Containment.NextRunHeals` | manager/app/websocket/agent_ws.py:384-408 | whatever happened before, uncandid executions included, after a candid successful containment execution the flag is the state of the host again |
| `Containment.LagBounded` | agent/agent.py:531-543 | over every run, the executed commands the manager has not been told of are at most one more than the messages lost |
| `Containment.QuietFlagIsTrue` | manager/app/websocket/agent_ws.py:384-408 | with nothing unacknowledged the flag itself is the state of the host when it is not turned, and on a host that started open only then |
| `Containment.StatusClashesExactlyWhen` | manager/app/models/agent.py:26-54 | over every run, ACTIVE is shown with the flag set or ISOLATED with it clear, if and only if the last step to settle, edit or register was an edit or registration that made them clash |
| `Containment.RollbackMisleads` | manager/app/services/response/rollback_service.py:100-125 | from any state with nothing on the way, undoing an isolation shows the agent as active while its host is still cut off |
| `Containment.RefusedRunsMislead` | agent/commands/isolate.py:17-45 | from any state about to isolate an open host, refused runs leave it open and shown as isolated |
| `Containment.UnwrittenMarkerMisleads` | agent/commands/isolate.py:39-45 | from any state about to isolate, a marker that cannot be written leaves the host isolated and the manager's tables unchanged |
| `Json.ValueRoundTrip` | agent/win_agent_cpp/main.cpp:65-78 | a printed value followed by anything that may follow a value is read back as itself, if and only if its strings hold no raw control characters |
| `Json.ParsePrint` | agent/win_agent_cpp/main.cpp:65-78 | reading inverts printing exactly on the clean values, and refuses the text of the others |
| `Json.NaturalValue` | agent/win_agent_cpp/main.cpp:371-372 | the decimal text of a number reads back as that number |
| `WindowsAgent.EscapeJson` | agent/win_agent_cpp/main.cpp:65-78 | the loop over the characters gives the escaping that the string reader inverts |
| `WindowsAgent.BuildHeartbeat` | agent/win_agent_cpp/main.cpp:350-360 | the text streamed from literals and escaped strings is the printed form of a heartbeat value |
| `WindowsAgent.BuildProcessList` | agent/win_agent_cpp/main.cpp:362-379 | the text streamed from literals and escaped strings is the printed form of the nested value that lists the processes |
| `WindowsAgent.BuildTelemetry` | agent/win_agent_cpp/main.cpp:381-408 | the text streamed from literals and escaped strings is the printed form of the value with both lists |
| `WindowsAgent.HeartbeatRoundTrip` | agent/win_agent_cpp/main.cpp:350-360 | the manager's parser gives back the heartbeat, if and only if its four strings are clean |
| `WindowsAgent.ProcessListRoundTrip` | agent/win_agent_cpp/main.cpp:362-379 | the manager's parser gives back the same list, if and only if no string holds a control character other than newline, return and tab; otherwise the whole message is refused |
| `WindowsAgent.TelemetryRoundTrip` | agent/win_agent_cpp/main.cpp:381-408 | the same for the message with processes and connections |
| `WindowsAgent.HeartbeatReadExactlyWhen` | agent/win_agent_cpp/main.cpp:350-360 | what the manager reads under each key of a heartbeat is what the agent put there, if and only if the strings are clean; otherwise it reads no message |
| `WindowsAgent.ProcessListReadExactlyWhen` | agent/win_agent_cpp/main.cpp:362-379 | the same for a process list, each field of each process in order |
| `WindowsAgent.TelemetryReadExactlyWhen` | agent/win_agent_cpp/main.cpp:381-408 | the same for telemetry, each field of each process and connection in order |
| `ProcessStore.Session.DeleteByAgent` | manager/app/websocket/agent_ws.py:36-133 | removes the agent's rows and keeps the others in order |
| `ProcessStore.Session.AddNested` | manager/app/websocket/agent_ws.py:36-133 | an insert under a savepoint: a refused row leaves no trace |
| `ProcessStore.Session.SaveProcessList` | manager/app/websocket/agent_ws.py:36-133 | a save raises exactly when an item is no object, and otherwise leaves the others' rows and the kept items in order; saved plus skipped is the length of the list; an empty list changes nothing |
| `ProcessStore.KeptAppend` | manager/app/websocket/agent_ws.py:69-118 | items are kept or skipped one by one, each on its own, in order |
| `ProcessStore.KeptFits` | manager/app/websocket/agent_ws.py:50-118 | every kept row has a pid that is not negative and texts within their columns, belongs to the agent and was taken by the database |
| `ProcessStore.KeptReads` | manager/app/websocket/agent_ws.py:69-118 | for any item: it is passed over when its pid is no number or negative or its row is refused, and otherwise its row is suspicious exactly when the item says so, has `parent_pid` or only without one `ppid` as parent, and takes the name, paths, command line and hash the members give, cut to their columns |
| `ProcessStore.SaveReplaces` | manager/app/websocket/agent_ws.py:36-133 | a later list replaces an earlier one entirely |
| `ProcessStore.SaveIsLocal` | manager/app/websocket/agent_ws.py:36-133 | after a save the agent's rows are exactly the kept ones and every other agent's rows are untouched |
| `ProcessStore.WindowsItemRow` | manager/app/websocket/agent_ws.py:69-118 | a process printed by the Windows agent becomes a row with ppid as parent and its texts cut to their columns |
| `ProcessStore.WindowsListStored` | manager/app/websocket/agent_ws.py:69-118 | from the agent's list through its printed text and the manager's parser to the table: one row for each process, in order |
| `ProcessStore.PythonItemRow` | agent/agent.py:208-232 | a process collected by the Python agent becomes a row with its parent, texts and suspicious flag |
| `ProcessStore.PythonListKept` | manager/app/websocket/agent_ws.py:69-118 | a list of them becomes one row for each, in order |
| `Dns.WalkRetraces` | agent/dns_sniffer.py:40-52 | for any bytes, the label loop stops, and its raw labels re-encoded are exactly the bytes it walked over, with a last label cut short keeping its announced length |
| `Dns.WalkInvertsEncode` | agent/dns_sniffer.py:40-52 | labels encoded as in section 4.1.2 of RFC 1035 are walked over to exactly those labels, whatever comes before and after |
| `Dns.SplitInvertsJoinExactlyWhen` | agent/dns_sniffer.py:52-52 | the labels can be recovered from the joined name, if and only if there are some and none holds a dot |
| `Dns.TypeNameInjective` | agent/dns_sniffer.py:11-22 | the recorded type text tells the type: no two types share one |
| `Dns.ReadLabels` | agent/dns_sniffer.py:40-50 | the loop gives the decoded labels of the walk and the place where it ends |
| `Dns.AsciiDrops` | agent/dns_sniffer.py:49-49 | bytes below 128 are kept as their characters and all others dropped |
| `Dns.ParseDnsQuestion` | agent/dns_sniffer.py:25-68 | there is a question exactly when the header is whole and counts one; its name is the labels joined by dots, and its type is the text of the two bytes after them by the table of ten names or the number, or A when the payload ends first |
| `Dns.SniffInvertsBuild` | agent/dns_sniffer.py:104-120 | sniffing a frame built from labels and a type, with any IP options (section 3.1 of RFC 791) and any trailing bytes, recovers exactly those labels, and records the type by its name in a table of ten, or by its number |
| `Dns.SniffInvertsReceived` | agent/dns_sniffer.py:98-120 | the same from the wire, where a frame is cut after 2048 bytes, whenever the question ends before the cut |
| `Dns.SniffExactlyWhen` | agent/dns_sniffer.py:104-120 | bytes are recorded, if and only if they are a UDP segment from or to port 53 with a question about a name, and what is recorded is that question |
| `Dns.SniffedExactlyWhen` | agent/dns_sniffer.py:98-126 | the same for a frame from the wire, judged by its first 2048 bytes |
| `Dns.DnsSniffer.Capture` | agent/dns_sniffer.py:98-126 | one frame adds its question to the buffer, or nothing |
| `Dns.DnsSniffer.CaptureAll` | agent/dns_sniffer.py:98-126 | after any frames the buffer holds the latest of all questions seen, as many as it takes, in order |
| `Fim.FileIntegrityMonitor.GetAllTargetFiles` | agent/fim.py:47-58 | the target set of a snapshot |
| `Fim.FileIntegrityMonitor.InitializeBaseline` | agent/fim.py:60-67 | the cache afterwards, path by path: the hash of what is listed or walked and can be read, and otherwise what was there |
| `Fim.FileIntegrityMonitor.CheckIntegrity` | agent/fim.py:69-143 | in whatever order the loops run: a path is cached afterwards exactly when it exists and was cached or is watched and readable, with its hash, or its old one when it cannot be read; there is one alert for each path whose hash differs between the two caches, with both hashes and the kind of change |
| `Fim.CheckReplays` | agent/fim.py:69-143 | the alerts of a check, in any order, replayed over the old cache give the new one, each legal in its turn |
| `Fim.RunReplays` | agent/fim.py:60-143 | over any run of checks and snapshots all alerts folded over the baseline give the current cache, and each is legal in its turn |
| `Fim.AlertsChain` | agent/fim.py:69-143 | over any run, two successive alerts about a path chain: the old hash is the previous new one, a creation follows exactly a deletion, a modification changes the hash |
| `Fim.FirstAlert` | agent/fim.py:60-143 | the first alert about a path starts from the baseline |
| `Fim.Watch` | agent/fim.py:60-143 | the monitor itself, started on one snapshot and run on any others: its alerts are those of such a run, and fold over its baseline to its cache |
| `Fim.CheckSettles` | agent/fim.py:78-141 | after a check every readable target is cached with its hash, every cached path exists, and the same check again reports nothing |
| `AuthLog.DetectLogFile` | agent/auth_monitor.py:47-51 | the first of the known paths that exists, or none exactly when none does |
| `AuthLog.AuthMonitor.constructor` | agent/auth_monitor.py:36-45 | a monitor starts at the end of the first file that exists |
| `AuthLog.AuthMonitor.GetNewEvents` | agent/auth_monitor.py:53-125 | the file followed, the position at its end, and the events of the lines after the old position, or of the whole file when it is shorter |
| `AuthLog.LinesCutText` | agent/auth_monitor.py:71-72 | the lines of a text are the text, cut after each newline and nowhere else |
| `AuthLog.LineGivesEvent` | agent/auth_monitor.py:74-120 | a line gives the event of what is left without the white space around it, and a blank one none |
| `AuthLog.PollReadsWrittenExactlyWhen` | agent/auth_monitor.py:63-75 | after any appends and replacements, a poll reads exactly what was written since the last one, if and only if nothing was written before the last replacement and the new file is shorter than the old one or the old one was empty |
| `AuthLog.RunReadsWrittenExactlyWhen` | agent/auth_monitor.py:63-75 | over any run of polls, each reads exactly what was written for it, if and only if every replacement is noticed in that sense |
| `AuthLog.LinesSeenExactlyWhen` | agent/auth_monitor.py:72-80 | the lines of all polls together are the lines of all text read, if and only if no poll comes in the middle of a line |
| `AuthLog.EveryLineOnce` | agent/auth_monitor.py:53-125 | over any run with noticed replacements and whole lines, the events of all polls are those of every line written since startup, in order and each exactly once |
| `AuthLog.UnnoticedReplacementLosesLines` | agent/auth_monitor.py:66-69 | for any text, replacing the file by one of the same length loses all its lines |
| `AuthLog.HalfLinesLoseEvents` | agent/auth_monitor.py:71-80 | a line read in two halves is seen as two lines and its event is missed |
| `AuthLog.Follow` | agent/auth_monitor.py:53-125 | the monitor itself, polled after each round of writes, gives the events of those reads |
| `FlowStats.Sampler.GetNetworkFlowStats` | agent/agent.py:409-483 | for every combination of missing counters: how much each counter grew, nothing for one that went back; the packets of each protocol, or three quarters and the rest; and what is remembered |
| `FlowStats.DeltasTelescopeExactlyWhen` | agent/agent.py:418-439 | the reported bytes since startup are at least the growth of the counter, and equal to it if and only if the counter never went back |
| `FlowStats.FlowTable.HandleFlowStats` | manager/app/websocket/agent_ws.py:237-275 | the rows a report adds: one for each protocol with packets, with its own packets, port, and share of the bytes rounded down; a single TCP row when there are none |
| `FlowStats.RowsCarryReport` | manager/app/websocket/agent_ws.py:237-275 | the rows of a report carry all its bytes, less one exactly when both protocols have packets and the split is not even, and all the packets it names |
| `FlowStats.RowsAreShared` | manager/app/websocket/agent_ws.py:237-275 | over any reports each protocol has its packets, and its exact share of the bytes with less than one byte missing for each report |
| `FlowStats.TableFollowsCounter` | manager/app/websocket/agent_ws.py:237-275 | from the counter to the table: the bytes recorded fall short of the counter's growth by the number of uneven splits, so by at most one for each report |
| `FlowStats.Monitor` | agent/agent.py:409-483 | agent and manager together, sample by sample, fill the table with those rows, each protocol getting its packets and its share |
| `Beacon.CheckBeaconing` | manager/app/models/flow.py:42-62 | sorting, taking intervals and comparing gives the flag of the definition, false below three times |
| `Beacon.OrderDoesNotMatter` | manager/app/models/flow.py:42-62 | the flag depends on the times alone, not on their order |
| `Beacon.Popoviciu` | manager/app/models/flow.py:42-62 | values within a range deviate by at most a quarter of its squared length each |
| `Beacon.SortBeats` | manager/app/models/flow.py:42-62 | sorting keeps every event of a jittered beacon within its jitter of its place, even where events overtake one another |
| `Beacon.BeaconsFlaggedExactlyWhen` | manager/app/models/flow.py:42-62 | every beacon of jitter at most d is flagged, whatever its period, length and order, if and only if 8 d^2 is at most the squared limit and the limit is not negative |
| `Beacon.FlaggedIntervalsAreClose` | manager/app/models/flow.py:42-62 | when flagged, every interval lies within the limit times the root of one less than their number of the mean |
| `Suspicious.GetSuspicious` | manager/app/repositories/network_repository.py:19-99 | the loops over flows fetched newest first give one entry for each suspicious connection, its newest flow with exactly the reasons that apply, newest first, and all of them or the newest as many as the limit allows; a risk no flow has gives nothing |
| `Suspicious.Dedupe` | manager/app/repositories/network_repository.py:89-97 | the loop with its set of seen keys keeps exactly the items that lead their key |
| `Suspicious.DedupedKeepsLeaders` | manager/app/repositories/network_repository.py:89-97 | what is kept is the first item of each key, all of them, in their old order |
| `Suspicious.AnswerIsNewestOfEach` | manager/app/repositories/network_repository.py:51-99 | over flows fetched newest first: distinct keys, each entry a suspicious flow and the newest of its key, newest first, every suspicious key present unless the limit cut the list |
| `Suspicious.AnswerListsSuspects` | manager/app/repositories/network_repository.py:28-99 | the same of the list as defined, with the ports, programs and addresses written out |
| `Suspicious.WindowSufficesExactlyWhen` | manager/app/repositories/network_repository.py:35-39 | the flows beyond the fetched window would not change the answer, if and only if the fetched ones fill the limit or no older one has a new key |
| `ProcessTree.PathsInjective` | frontend/src/hooks/useProcessTree.js:7-15 | a forest is determined by the preorder list of its root-to-node paths, so the laws below pin the result down completely |
| `ProcessTree.RemovalKeepsTheRest` | frontend/src/hooks/useProcessTree.js:7-15 | removing a pid keeps exactly the nodes with no ancestor-or-self of that pid, each under its old ancestors, in the old preorder |
| `ProcessTree.AvoidingHolds` | frontend/src/hooks/useProcessTree.js:7-15 | which paths are kept, and that all are exactly when none meets the pid |
| `ProcessTree.RemovalsSettle` | frontend/src/hooks/useProcessTree.js:7-15 | removal is idempotent, and removals of two pids commute |
| `ProcessTree.RemovalIsNeutralExactlyWhenAbsent` | frontend/src/hooks/useProcessTree.js:7-15 | removal changes nothing if and only if no node has the pid |
| `ProcessTree.FirstIsFirst` | frontend/src/pages/ProcessTree.jsx:183-195 | the first path to a pid exists exactly when a node has it, and nothing before it in preorder does |
| `ProcessTree.WayLeadsToFirst` | frontend/src/pages/ProcessTree.jsx:183-195 | the recursive search succeeds exactly when the target occurs, and adds exactly the pids above its first preorder occurrence |
| `ProcessTree.Expansion.ExpandPath` | frontend/src/pages/ProcessTree.jsx:183-195 | the search in place: its answer, what it adds to the set, nothing otherwise, and whether the change flag is raised |
| `ProcessTree.Expansion.Walk` | frontend/src/pages/ProcessTree.jsx:201-211 | the walk in place: what it adds to the set, and a change flag that is raised exactly when something was new |
| `ProcessTree.WalkMarks` | frontend/src/pages/ProcessTree.jsx:201-211 | the recursive walk adds exactly the marked last nodes of the forest's paths |
| `ProcessTree.MarkedHolds` | frontend/src/pages/ProcessTree.jsx:201-211 | marked are exactly the nodes less than two levels down, of the page's programs and suspicious ones, wherever they are |
| `ProcessTree.AutoExpand` | frontend/src/pages/ProcessTree.jsx:176-213 | open afterwards is exactly what was, the focused pid, what lies above its first node, and every node at the top or just below it, of the page's programs or suspicious |
| `ProcessTree.FocusIsShown` | frontend/src/pages/ProcessTree.jsx:176-213 | afterwards the first node with the focused pid is on screen, as is every node down to depth two and all that was on screen before |
| `AgentList.Enter` | frontend/src/pages/ProcessTree.jsx:121-134 | one agent takes the place of another of its host exactly when it is better |
| `AgentList.Deduped` | frontend/src/pages/ProcessTree.jsx:118-136 | every host once, in order of first appearance, by an active agent if it has one, of those the latest seen, and of those the first |
| `AgentList.HostsHold` | frontend/src/pages/ProcessTree.jsx:118-136 | the hosts are exactly the agents' keys, each once |
| `KillTree.OrderIsBottomUpExactlyWhen` | agent/commands/kill_process_tree.py:29-42 | the kill order puts every process after its descendants, if and only if the listing with its root puts every process before them |
| `KillTree.Machine.KillByPid` | agent/commands/kill_process_tree.py:23-46 | the pids reported as killed and the processes left alive, for any refused and vanished ones |
| `KillTree.FelledIsAllKillable` | agent/commands/kill_process_tree.py:29-42 | by pid: everything in the family that lives and is not protected is killed, once, and no child after its parent |
| `KillTree.Machine.KillNamed` | agent/commands/kill_process_tree.py:59-66 | the same by name, where the first process that cannot be killed ends the family |
| `KillTree.FelledUntilHolds` | agent/commands/kill_process_tree.py:59-66 | by name: the family is killed in order up to the first process that cannot be |
| `KillTree.WholeFamilyExactlyWhen` | agent/commands/kill_process_tree.py:59-66 | a family dies out, if and only if each of its listing is alive and can be killed |
| `KillTree.OnlyGuardedOutlive` | agent/commands/kill_process_tree.py:29-42 | at every moment of a bottom-up kill by pid, a living descendant of a killed process is one whose own kill is refused |
| `KillTree.OrphansExactlyWhen` | agent/commands/kill_process_tree.py:29-42 | a kill by pid leaves an orphan if and only if a process that refuses lives below one that does not |
| `KillTree.NamedLeavesNoOrphan` | agent/commands/kill_process_tree.py:59-66 | a kill of one family by name leaves none, whatever is refused |
| `KillTree.Machine.Execute` | agent/commands/kill_process_tree.py:20-71 | the command as a whole: the pids killed by pid, or, only if there are none, those of the matching families one after the other, and the processes left alive |
| `KillTree.FelledAllExactlyWhen` | agent/commands/kill_process_tree.py:49-69 | a process is killed by name, if and only if some matching family, in its turn, gets down to it before it meets one that cannot be killed |
| `KillTree.SearchLeavesNoOrphan` | agent/commands/kill_process_tree.py:49-69 | a search by name leaves no living process below a killed one, however the matching families overlap and whatever is refused |
| `KillTree.CommandOrphansExactlyWhen` | agent/commands/kill_process_tree.py:20-71 | the command leaves a living process below a killed one, if and only if the pid named a family in which a process that refuses lives below one that does not; falling back on the name never does |

## Left out

- Firewall.DeleteChainsIsNeutral: assumes that `iptables -X` deletes all user chains or none, and does nothing while one is not empty or a rule jumps to one.
- Firewall.Host.Isolate: the manager's address is a parameter; the code looks it up only after the policies are set, and falls back to a fixed address when that fails.
- RequestReply.UndisturbedRunsPairUp: is about one connection; reconnecting, losing messages with the socket, invalid JSON and messages of unknown type are not modelled.
- Delivery.AtMostOncePerSend: counts the pulls of the heartbeat loop alone; acknowledgements over the REST interface, the dispatcher's in-memory queue and deleted commands are not modelled.
- Containment.FlagFitsHostExactlyWhen: a flag that fits only by chance, on a host that did not start open, is not told from one that follows it.
- Manager.Endpoint.Process: messages that are not JSON or of no known type, an agent that speaks for another over its own connection, and the timing of replies are not modelled.
- Manager.Endpoint.RollbackAction: cooldowns, audit entries and a rollback that fails half-way are not modelled; neither is the deletion of agents and commands.
- Outcomes.ContainmentNeverFails: is about the Python agent's handlers; acknowledgements over the REST interface are not modelled.
- Json.ParsePrint: fractions, exponents, `NaN` and lone surrogate escapes, which Python's reader accepts and the agent never prints, are refused here.
- ProcessStore.Session.SaveProcessList: Python's `int()` and `str()` on unusual values, and which rows the database takes, are parameters; cpu and memory shares, row ids and creation times are not modelled.
- Dns.SniffInvertsReceived: a question that reaches beyond the 2048 bytes received is not recovered.
- Dns.DnsSniffer.Capture: the sender's address and the time of a query, and the normalising in `record_query`, are not modelled.
- Fim.FileIntegrityMonitor.CheckIntegrity: sees one snapshot of the file system; changes during a check, and hashing itself, are not modelled.
- AuthLog.AuthMonitor.GetNewEvents: text is one character for each byte, lines end in newlines only, and the three patterns are one function from a line to an event; files that cannot be read are not modelled.
- AuthLog.Follow: follows one file that stays in place; removal of the file is covered by `AuthLog.AuthMonitor.GetNewEvents` alone.
- FlowStats.FlowTable.HandleFlowStats: takes reports as the agent makes them, without the optional list of single flows, and without addresses, names and times.
- FlowStats.TableFollowsCounter: shares are exact fractions rounded down; rounding of floating-point products is not modelled.
- Beacon.CheckBeaconing: times and deviations are exact real numbers, compared through their squares.
- Suspicious.GetSuspicious: the query that fetches the newest flows of a period is an input, and the lower-cased process name comes with the flow.
- ProcessTree.RemovalKeepsTheRest: null nodes, missing child lists and pids given as text are not modelled.
- AgentList.Deduped: hosts whose names read as array indexes, which the browser lists first, and dates that cannot be read are not modelled.
- KillTree.Machine.KillByPid: starts after the process was found; an unreadable pid, the messages and the reaping of zombies are not modelled.
- KillTree.Machine.Execute: the matching of names is an input, as are the listings of descendants; a listing that cannot be read is one that is not there.
- Windows isolation through `netsh`, its precedence rules being those of Windows Firewall.
- The process heuristics and YARA rules, which are pattern lists run by a foreign engine.
- Risk scores, cooldowns and the policy engine, beyond the commands, actions and rollbacks they issue.
- `ParseUrl` of the Windows agent, the remaining repositories, schemas, migrations and pages, which would add only easy members.
