# Cognitive Firm: a verified model

The repository is an organisation kernel whose agents act under the authority of a human principal.
This project models the parts of it that hold state, parse or encode, and proves what they keep.

**The approval gates of the agent daemon** are the centre. A daemon that wants to run an agent and may
not do so on its own opens a *gate*: a question file in `gates/pending`. The principal answers through
Telegram or another surface; the answer is written to a temporary file, moved to `gates/resolved`, the
question is renamed to `.handled`, and an entry goes to the transition log.

- `GateFiles.dfy` is the gate directory as a state machine over *single* disk steps, its invariant, and
  the proof that every allowed step keeps it; `GateCrashes.dfy` is what the death of a process between two
  steps leaves behind.
- `Telegram.dfy` routes and decodes inbound messages.
- `GatePlans.dfy` says which disk steps the operations issue: resolving by the daemon, resolving by the app
  surfaces (which check less), opening, waiting.
- `GateWaits.dfy` says when a wait ends with an option, pass by pass.
- `DaemonTick.dfy` is one governance tick; `GateRuns.dfy` whole runs of ticks, resolve requests, other
  daemons and app surfaces, restarts, and the death of any process between any two disk steps, also while
  the daemon waits; `GateCache.dfy` the in-process cache.
- `AgentDaemon.dfy` is the daemon as a class that updates its files, log and cache in place. Each method
  is proved to perform exactly the disk steps of its plan, so the theorems about plans are about it.
- `ResolvedDiscovery.dfy` finds approved gates that wait for execution, `Directives.dfy` reads the
  directives left for a role.

**The role files** are read by a stack machine that mutates nested dictionaries through aliases
(`YamlLoader.dfy`, a heap-allocated `Dict` per mapping). It is proved to build the tree of a recursive
reading, "children are the deeper-indented lines" (`IndentYaml.dfy`), and to undo a printer
(`YamlPrinter.dfy`). `YamlTexts.dfy` tells from the text alone what each line and each value stands for.

**Identity**: unpadded base64url (`Base64Url.dfy`) and compact HS256 tokens (`Jwt.dfy`) as in RFC 4648,
RFC 7515, RFC 7518 and RFC 7519; the application of directory plans (`Provisioning.dfy`); comma lists
(`CsvLists.dfy`).

**Supporting tools**: README index blocks (`ReadmeIndex.dfy`), JSON inside HTML scripts
(`ScriptJson.dfy`, string literals as in RFC 8259), the dispatch timeline (`Timeline.dfy`), the in-order
event check (`EventOrder.dfy`). `Text.dfy` holds the string operations.

## What turned out not to hold

Where the code does less than its comments promise, the code is modelled as it is, the failure is a
lemma with a concrete family of inputs, and the exact condition is proved.

- An approval is meant for one execution. If a process dies between moving an answer to `resolved` and
  renaming the question, the gate stays *stale* for ever: no later resolver touches it, no
  `gate.resolved` entry is ever written, and every later attended tick about the same matter finds the old
  approval and executes again (`GateRuns.CrashedApprovalRunsTwice`). A tick executes on an old approval
  exactly if it asks about the matter of a stale approved gate (`GateRuns.TickSpendsExactly`), a gate is
  stale exactly if a process died in that window (`GateRuns.StaleAfterRun`), and over a run some approval
  is spent twice exactly if a tick asks about the matter of a gate that was executed on before and is still
  listed as a question (`GateRuns.RepeatedApprovalExactly`). These theorems count the executions that rest on
  a tick's own gate. A gate that discovery offers again, see below, can be executed once more by automatic
  approval; such an execution is recorded without a gate.
- Opened gates are meant to be answerable. The daemon puts its role into the ids of its gates without checking
  it, and every resolver refuses ids with characters outside `[A-Za-z0-9_.:-]`: the gates of a role called
  "chief of staff" are never answered in any run, a reply to one makes the tick raise, and a wait on one never
  ends with an option (`GatePlans.SpacedRole`, `GateRuns.InvalidNeverAnswered`, `GatePlans.InvalidPoll`,
  `GatePlans.InvalidNeverChosen`). An opened gate can be answered exactly if its id is valid
  (`GatePlans.AnswerableExactly`), and a new id is valid exactly if all characters of the role may occur in
  ids (`GatePlans.NewGateIdValid`).
- Answers are meant to be readable. The app surfaces store any option text, and the web surface stores
  "resolved" when its request names none; such a gate is closed for every resolver, the daemon rejects its
  answer, and a wait on it takes the whole half hour (`GatePlans.AppDefaultIsUnreadable`,
  `GatePlans.UnreadableTimesOut`). The answer can be read exactly if the option text in lower case is one
  of the three words (`GatePlans.AppAnswerReadable`).
- Discovery and the waiting daemon read the same answers, but discovery compares the exact text. They agree on
  an answer exactly if it is "approve", or is not "approve" in any case
  (`ResolvedDiscovery.ReadersAgreeExactly`); "APPROVE", as an app surface may store it, is an approval for the
  wait and refused by discovery for good (`ResolvedDiscovery.CapitalApprovalRefused`).
- A button pressed for another gate than the waited one is meant to be picked up later. Polling takes it off
  the inbox, so it is lost; a press counts exactly if the waited gate's id ends in the pressed gate's short
  form and no earlier message of the batch decides (`GatePlans.PressCountsExactly`).
- A resolve request for a gate that does not exist yet fails but is remembered by the cache, so the same
  process later ignores a valid answer (`GateCache.PrematureRequestIsRemembered`). One call behaves the
  same with and without the cache exactly unless the cache holds the id of a gate that is still to be
  answered as the request asks (`GateCache.CacheMattersExactly`). A tick does exactly unless it asks about such
  a gate and hears a decision in time (`GateCache.TickAgreesExactly`), and a run agrees after every step exactly
  if none of its steps meets that condition (`GateCache.CacheShowsExactly`). Three steps of a new daemon show the
  difference (`GateCache.PrematureRunDiffers`, `GateCache.ManagerRunDiffers`).
- A reply within the half hour is meant to be acted on. Each pass of the wait reads before it polls, so a reply
  recorded by the last pass is on disk and handled when the wait reports that there was none
  (`GateWaits.LastPassReplyIsLost`). A wait ends with an option exactly if some pass that begins before the
  deadline finds it on disk (`GateWaits.WaitEndsExactly`), which tells exactly when a tick executes
  (`DaemonTick.TickExecutesExactly`) and when it ends the daemon (`DaemonTick.TickExitsExactly`).
- The daemon marks an executed gate as `X.json.dispatched`, discovery looks for `X.dispatched`. The two
  agree exactly for names without a suffix, so an executed gate is always offered again
  (`ResolvedDiscovery.HiddenExactly`, `ResolvedDiscovery.MarkingHidesNothing`).
- Refreshing a README twice is refreshing it once exactly when neither the start line nor the index
  contains the end marker; otherwise each run makes it longer (`ReadmeIndex.RefreshIdempotent`).
- Provisioning does not renew an expired membership (`Provisioning.ExpiredIsNotRenewed`): the grant puts the
  actor in force exactly if no active record fitted it, expired or not, and it has not expired itself
  (`Provisioning.RenewedExactly`). Provisioning also skips an unscoped grant when the actor holds the role in any one
  scope (`Provisioning.UnscopedGrantSkipped`); what a whole plan reaches in which scope and when is
  `Provisioning.PlanReaches`.
- A read by one role can consume another role's directives. It leaves them alone exactly if its role id occurs
  in the file name of none of them (`Directives.LeavesOthersExactly`); a role whose id is contained in the
  other id, or one called "json", takes them all.
- A list claim and the same claim as comma-separated text agree exactly when no part contains a comma
  (`CsvLists.ListAndTextAgree`).

## Model

| member | source | states |
|---|---|---|
| GateFiles.StepKeepsInv | scripts/agent_daemon.py:1280-1329 | each single disk step the daemon may take keeps the whole invariant: opened gates are never lost, answers are whole, at most one `gate.resolved` entry a gate, one open question a matter, executions rest on approvals |
| GateFiles.PrefixKeepsInv | scripts/agent_daemon.py:1313-1329 | cutting a sequence of allowed steps off anywhere, as a crash does, leaves the invariant intact |
| GateFiles.RunGrows | scripts/agent_daemon.py:1280-1320 | later steps never undo an answer, an opened gate, a handled file, a log entry, a past execution or a stale gate |
| GateFiles.RepeatedGatesAreStale | scripts/agent_daemon.py:1318-1320 | two executions rest on one gate only while it is listed both as question and as answer |
| GateFiles.SettledShape | scripts/agent_daemon.py:1318-1320 | questions and answers are disjoint, and handled equals resolved, exactly when no gate is stale |
| GateFiles.ReadExactly | scripts/agent_daemon.py:1230-1248 | a resolved file stands for an option exactly if its id and status are right and that option is chosen, or none is and it is the `verdict` |
| GateFiles.IdCharTable | scripts/agent_daemon.py:170-170 | the characters of valid ids, one by one |
| GateCrashes.StaleExactly | scripts/agent_daemon.py:1318-1320 | after any allowed steps exactly those gates are stale that were before, or whose resolver died between publishing the answer and renaming the question |
| GateCrashes.UnloggedExactly | scripts/agent_daemon.py:1318-1329 | after any allowed steps exactly those answers are missing from the log that were before, or whose resolver died after publishing and before reporting |
| Telegram.FirstSomeIsFirst | scripts/agent_daemon.py:1370-1394 | a batch yields the decision of the first message that has one, and none exactly when no message has one |
| Telegram.CallbackRoutesBySuffix | scripts/agent_daemon.py:1369-1378 | a callback is honoured for a waited gate exactly when the gate id ends in it |
| Telegram.ButtonReachesItsGate | scripts/agent_daemon.py:315-322 | a button's data fits the 64 bytes of the transport, decodes to its own option for its own gate, and is honoured for another gate exactly when that id ends in the same short form |
| Telegram.ButtonMissesOtherGates | scripts/agent_daemon.py:1369-1378 | gates that differ in their last 12 characters never take each other's buttons |
| Telegram.TypedReplyDecodes | scripts/agent_daemon.py:1371-1386 | a reply decodes by its command and its first word alone, in any case, after any white space, with any dots and then colons at its end: to "stop" exactly if either is STOP, otherwise to "approve" exactly for APPROVE, YES, RUN, to "skip" exactly for SKIP, NO, DEFER, and to nothing for every other word |
| Telegram.TypedReplyMeans | scripts/agent_daemon.py:1371-1386 | the same for a typed text and whatever gate is waited on: the command it is filed under adds nothing to its first word |
| Telegram.CommandExactly | src/cognitive_firm/notifications/telegram.py:148-162 | a text is filed under STOP, PAUSE, RESUME or STATUS exactly if that is what stands before its first blank, in any case, and under DIRECTIVE otherwise |
| Telegram.BlankReply | scripts/agent_daemon.py:1379-1387 | a reply without any word decides nothing |
| Telegram.ColonlessCallback | src/cognitive_firm/notifications/telegram.py:223-226 | callback data without a colon names no gate and is honoured for whichever is waited on |
| Text.CaseTable | scripts/agent_daemon.py:1379-1379 | upper and lower case are those of the 26 letters, one by one, and nothing else changes |
| Text.SpaceTable | scripts/agent_daemon.py:1372-1379 | the white space that stripping and splitting go by, one character at a time |
| Telegram.ParseOptionExactly | scripts/agent_daemon.py:1270-1272 | the option text of a request is one of the three words in any case and with any white space around it, or no option |
| Telegram.FieldExactly | scripts/agent_daemon.py:1243-1245 | a stored option text is missing if empty, an option if it is one of the three words in any case, and otherwise unreadable |
| GatePlans.AnswerAllowed | scripts/agent_daemon.py:1299-1329 | answering an open gate, by the daemon or an app surface, obeys the discipline at each of its five disk steps, and where it leads |
| GatePlans.ResolveExactly | scripts/agent_daemon.py:1268-1300 | each outcome of a resolve request under its own condition on the id, the option, the cache and the files; only an answer issues steps, and what the cache holds afterwards |
| GatePlans.AnsweredOnDisk | scripts/agent_daemon.py:1301-1329 | what an answer leaves behind: the question with status, id and chosen option changed and the rest kept, the question renamed, one log entry, and nothing else |
| GatePlans.AppExactly | src/cognitive_firm/orchestration/app_intents.py:107-130 | each outcome of the app resolver under its own condition, which asks neither for the offered options nor for the id inside the file |
| GatePlans.OpenedResolves | scripts/agent_daemon.py:1280-1300 | once the id and the option text have passed their checks, an opened gate is either answered already, and then nothing is done, or is answered as asked |
| GatePlans.AnswerableExactly | scripts/agent_daemon.py:1268-1300 | an opened gate without an answer can be given one, by the daemon with each of the three options and by an app surface with any text, exactly if its id is valid |
| GatePlans.NewGateIdValid | scripts/agent_daemon.py:1188-1188 | the id of a new gate is valid exactly if all characters of the role may occur in ids |
| GatePlans.SpacedRole | scripts/agent_daemon.py:1961-1962 | a role the command line accepts and whose gate ids are all refused |
| GatePlans.InvalidPoll | scripts/agent_daemon.py:1268-1269 | while waiting on a gate with an invalid id, the first polled batch with a decision makes the wait raise, and no other does |
| GatePlans.InvalidNeverChosen | scripts/agent_daemon.py:1397-1408 | such a wait never ends with an option |
| GatePlans.ResolveAllowed | scripts/agent_daemon.py:1255-1329 | every resolve request, with or without the cache, keeps the discipline, and one that answers leaves its option readable |
| GatePlans.CrashLeavesStale | scripts/agent_daemon.py:1318-1320 | a crash after the third of the five steps leaves the gate answered and still listed as a question |
| GatePlans.AppOrderly | src/cognitive_firm/orchestration/app_intents.py:97-157 | an app surface keeps the discipline whatever option text it passes |
| GatePlans.AppAnswerReadable | src/cognitive_firm/orchestration/app_intents.py:109-133 | a gate answered by an app surface gets a readable answer exactly if the option text in lower case is one of the three words, and it is that word then |
| GatePlans.AppDefaultIsUnreadable | orbit/src/server/git-sync.ts:687-692 | the web surface's default text closes an open gate without a readable answer |
| GatePlans.UnreadableTimesOut | scripts/agent_daemon.py:1397-1408 | a wait on a gate with an unreadable answer always times out, whatever replies arrive |
| GatePlans.PressCountsExactly | scripts/agent_daemon.py:1370-1394 | a button press in a polled batch resolves the waited gate exactly if the gate ends in its short form and nothing earlier decides, and otherwise is as if never sent |
| GatePlans.OpenAllowed | scripts/agent_daemon.py:1146-1227 | opening reuses the one open question about role and subject, or opens it if and only if there is none; afterwards it is open |
| GatePlans.OthersConcat | scripts/agent_daemon.py:1399-1407 | what other processes do during a pass they do one after the other, each on what the earlier ones left |
| GatePlans.WaitOrderly | scripts/agent_daemon.py:1397-1408 | the whole wait, with other daemons and app surfaces answering meanwhile and dying on the way, keeps the discipline, and an option it reports is the one on disk |
| GateWaits.WaitEndsExactly | scripts/agent_daemon.py:1397-1408 | a wait on an opened gate ends with an option exactly if some pass that begins before the deadline finds it on disk |
| GateWaits.AnswerElsewhereIsHeard | scripts/agent_daemon.py:1397-1408 | an answer that another daemon gives to an opened gate ends the wait, with its option, in the pass in which it comes |
| GateWaits.ValidWaitTimesOut | scripts/agent_daemon.py:1397-1408 | a wait on an opened gate with a valid id never raises, and times out exactly if no pass in time finds an option |
| GateWaits.InvalidWaitRaises | scripts/agent_daemon.py:1397-1408 | a wait on a gate with an invalid id raises exactly if some pass in time polls a reply that decides |
| GateWaits.PassClock | scripts/agent_daemon.py:1397-1408 | passes begin at least five seconds apart, and exactly so if nothing delays them |
| GateWaits.LastPassReplyIsLost | scripts/agent_daemon.py:1399-1407 | a reply recorded by the last pass before the deadline is on disk and handled, and the wait reports none |
| DaemonTick.TickTidy | scripts/agent_daemon.py:1487-1954 | whatever a tick meets, each of its disk steps is allowed, and publishing, renaming and reporting an answer stay together unless a process dies |
| DaemonTick.TickLeavesStale | scripts/agent_daemon.py:1487-1954 | after a tick exactly those gates are stale that were before, or whose answer another process published during the wait and died before renaming |
| DaemonTick.TickJustified | scripts/agent_daemon.py:1593-1709 | an execution is preceded in its own tick by an automatic approval (unattended and allowed) or by the approved gate about its role and subject (attended, and allowed or open to approval); never in a dry run |
| DaemonTick.TickExecutesExactly | scripts/agent_daemon.py:1593-1788 | a tick executes without a gate exactly if it proceeds unattended with nothing to ask, and on a gate exactly if it asks about it and some pass of the wait finds "approve" in time; either way it must be able to claim its candidate |
| DaemonTick.TickReportsDispatch | scripts/agent_daemon.py:1499-1502 | a tick reports True exactly when it ran the agent and recorded the result |
| DaemonTick.TickExitsWhenTold | scripts/agent_daemon.py:1515-1700 | a tick ends the daemon only if a warning says STOP or the gate about its candidate is answered "stop" on disk, and executes nothing then |
| DaemonTick.TickExitsExactly | scripts/agent_daemon.py:1515-1700 | a tick ends the daemon exactly if a warning says STOP before any says PAUSE, or it asks and some pass of its wait finds "stop" in time |
| DaemonTick.TickPausesExactly | scripts/agent_daemon.py:1515-1525 | a tick pauses exactly if the first warning that mentions STOP or PAUSE mentions PAUSE alone; a tick with any such warning takes no step at all |
| DaemonTick.TickLogsExactly | scripts/agent_daemon.py:1584-1910 | which entries a tick writes: discovery, refusal, automatic approval, queueing, approval, closing without execution, claim, failed claim and result, each exactly under its own condition on the warnings, the authorisation, the mode, the answer heard and the claim |
| DaemonTick.TickRaisesExactly | scripts/agent_daemon.py:1487-1954 | a tick ends in an exception exactly if the agent run it was cleared for raised, or the wait did |
| DaemonTick.TickPasses | scripts/agent_daemon.py:167-168 | only the first 360 passes of a tick's wait count, and all of them do if nothing delays them |
| DaemonTick.SubjectExactly | scripts/agent_daemon.py:1115-1116 | the key of a proposal is the goal, or else the intent cut to 80 characters; two goal-less candidates share it exactly if their intents are equal or agree on at least 80 characters |
| GateRuns.RunSafe | scripts/agent_daemon.py:1170-1353 | over every run with app surfaces, other daemons and deaths after any disk step, also during a wait, the invariant holds and nothing is undone |
| GateRuns.GateSafety | scripts/agent_daemon.py:1170-1353 | in every reachable state opened gates are pending or resolved, answers are whole and readable exactly if they name one of the three options, a gate is reported resolved at most once and only with that answer on disk, and no matter is asked about twice at a time |
| GateRuns.VerdictIsFinal | scripts/agent_daemon.py:1230-1248 | once a gate has an answer, every later state of the run has the same answer and reads or rejects it alike |
| GateRuns.InvalidNeverAnswered | src/cognitive_firm/orchestration/app_intents.py:109-109 | a gate with an invalid id is answered in no run, by nobody |
| GateRuns.CacheAfterStep | scripts/agent_daemon.py:1332-1353 | a process that dies loses its cache, a new one starts without, and other processes leave it alone |
| GateRuns.EveryExecutionAuthorised | scripts/agent_daemon.py:1593-1788 | over every run, the k-th execution on record was authorised by the very tick that produced it, even if the process died right after it |
| GateRuns.StaleAfterRun | scripts/agent_daemon.py:1318-1320 | a gate is stale after a run exactly if in some step of it a process died between publishing its answer and renaming its question |
| GateRuns.UnloggedAfterRun | scripts/agent_daemon.py:1318-1329 | an answer is missing from the log after a run exactly if its resolver died after publishing and before reporting it |
| GateRuns.CrashFreeRun | scripts/agent_daemon.py:1146-1329 | pending and resolved are disjoint, and handled equals resolved, exactly if nobody died between publishing and renaming; every answer is logged exactly if nobody died before reporting either; no two executions rest on the same gate then |
| GateRuns.RepeatedApprovalExactly | scripts/agent_daemon.py:1685-1788 | over a run some approval is spent twice exactly if a tick asks about the matter of a gate that was executed on before and is still listed as a question, and is not cut off before it executes |
| GateRuns.RepeatedApprovalNeedsCrash | scripts/agent_daemon.py:1318-1320 | the gate of an approval spent twice is stale, and a process died between publishing that approval and renaming its question |
| GateRuns.TickSpendsExactly | scripts/agent_daemon.py:1161-1166 | a tick executes on an answer that was there before it began exactly if it asks and the gate about its matter is stale and approved |
| GateRuns.StaleApprovalRunsAgain | scripts/agent_daemon.py:1161-1166 | where in the tick the stale approved gate is executed again, whatever happens meanwhile |
| GateRuns.CrashedApprovalRunsTwice | scripts/agent_daemon.py:1318-1320 | the counterexample family: approve, die before the rename, and two later ticks both execute on the one approval |
| GateCache.CacheMattersExactly | scripts/agent_daemon.py:1273-1300 | one call leaves the same world with and without the cache exactly unless the cache holds the id of a valid, pending, readable, unanswered gate that offers the requested option |
| GateCache.PrematureRequestIsRemembered | scripts/agent_daemon.py:1275-1284 | a request for a gate not yet opened fails, is remembered, and makes a later valid answer a duplicate |
| GateCache.TickTransparent | scripts/agent_daemon.py:1332-1353 | a whole tick issues the same disk steps and ends the same way with and without the cache |
| GateCache.CacheUnobservable | scripts/agent_daemon.py:1332-1353 | over every run of requests on opened gates, with restarts, flushes and crashes anywhere, disk and log are those of a resolver without cache |
| GateCache.TickAgreesExactly | scripts/agent_daemon.py:1405-1406 | a tick leaves the same world with and without the cache exactly unless it asks about a gate whose id is in the cache although it is still to be answered, and hears a decision in time |
| GateCache.CacheShowsExactly | scripts/agent_daemon.py:1273-1300 | runs with and without the cache agree after every step exactly if the cache never holds the id of a gate still to be answered when a request for it is made or a reply to it is heard |
| GateCache.PrematureRunDiffers | scripts/agent_daemon.py:1275-1284 | a new daemon is asked to resolve a gate yet to be opened, opens it, and is asked again: with the cache the gate stays unanswered, without it it is answered |
| GateCache.ManagerRunDiffers | scripts/agent_daemon.py:1275-1284 | one such run in all its details |
| GateCache.CacheStaysSmall | scripts/agent_daemon.py:1349-1353 | between activities the cache never holds more than 500 ids |
| AgentDaemon.Daemon.MarkGateResolvedInMemory | scripts/agent_daemon.py:1341-1353 | true exactly for an id not seen yet; the cache gains it and is emptied beyond 500 |
| AgentDaemon.Daemon.WriteResolvedGateFromSurface | scripts/agent_daemon.py:1255-1329 | performs exactly the disk steps of its plan in order, with the plan's outcome and cache |
| AgentDaemon.Daemon.ResolveGateForApp | src/cognitive_firm/orchestration/app_intents.py:97-157 | the app surfaces' resolver performs exactly the disk steps of its plan, with the plan's outcome |
| AgentDaemon.Daemon.ReadResolvedGate | scripts/agent_daemon.py:1230-1248 | the option of a whole resolved file with the right id and status, and otherwise none |
| AgentDaemon.Daemon.FindExistingPendingGate | scripts/agent_daemon.py:1146-1167 | the id in the first readable pending file with this role and subject, none if there is none |
| AgentDaemon.Daemon.WriteProposalGate | scripts/agent_daemon.py:1170-1227 | performs exactly the disk steps of reusing or opening a gate |
| AgentDaemon.Daemon.ResolveGateFromTelegram | scripts/agent_daemon.py:1356-1394 | the first message meant for the gate that decodes to an option resolves it; all others are passed over |
| AgentDaemon.Daemon.WaitForGateResolution | scripts/agent_daemon.py:1397-1408 | the wait loop follows its plan, ends by the deadline and polls at most 360 times |
| AgentDaemon.Daemon.Tick | scripts/agent_daemon.py:1487-1954 | one tick performs exactly the disk steps of its plan, with the plan's outcome and cache |
| ResolvedDiscovery.MarkersAgree | src/cognitive_firm/orchestration/work_discovery.py:468-468 | the marker written after an execution is the one looked for exactly for names without a suffix |
| ResolvedDiscovery.HiddenExactly | scripts/agent_daemon.py:1830-1838 | executing gate `p` hides gate `q` exactly when `q` is the file `p.json`, so never `p` itself |
| ResolvedDiscovery.ExecutedIsOfferedAgain | scripts/agent_daemon.py:1828-1838 | an offered gate is offered again after the daemon marked it as dispatched |
| ResolvedDiscovery.ResolvedDirectory.MarkDispatched | scripts/agent_daemon.py:1830-1838 | marking adds exactly the written marker of the gate |
| ResolvedDiscovery.MarkingHidesNothing | src/cognitive_firm/orchestration/work_discovery.py:452-469 | however many gates were executed and marked, discovery offers the same gates as before |
| ResolvedDiscovery.LookingAgain | src/cognitive_firm/orchestration/work_discovery.py:476-483 | a second look offers the same gates, and each refusal is marked only once |
| ResolvedDiscovery.FoundExactly | src/cognitive_firm/orchestration/work_discovery.py:466-487 | what is offered is exactly the listed gates that are resolved, approved in so many letters, unmarked and of the owner |
| ResolvedDiscovery.FoundInFields | src/cognitive_firm/orchestration/work_discovery.py:466-487 | the same read off the files: resolved, "approve", of the owner if one is asked for, and no file named like it with `.dispatched` for `.json` |
| ResolvedDiscovery.SuffixExactly | src/cognitive_firm/orchestration/work_discovery.py:468-468 | what the sought marker replaces: what follows the last dot, if something stands before and after it |
| ResolvedDiscovery.ProposalFileExactly | src/cognitive_firm/orchestration/work_discovery.py:466-466 | the names looked at are `proposal_`, anything, `.json` |
| ResolvedDiscovery.ReadersAgreeExactly | src/cognitive_firm/orchestration/work_discovery.py:476-477 | the waiting daemon and discovery agree on an answer exactly if it is "approve" or is not "approve" in any case |
| ResolvedDiscovery.CapitalApprovalRefused | src/cognitive_firm/orchestration/work_discovery.py:476-483 | "APPROVE" is an approval for the wait and refused by discovery for good |
| ResolvedDiscovery.ResolvedDirectory.Discover | src/cognitive_firm/orchestration/work_discovery.py:466-487 | returns the approved gates of the owner among the newest, and marks exactly the refused ones |
| Directives.Box.ReadDirectives | scripts/agent_daemon.py:959-982 | returns what waits for the role in listing order; only a consuming read changes anything, and exactly the returned files that can be written |
| Directives.TakenExactly | scripts/agent_daemon.py:970-979 | a consuming read changes nothing in a file but its mark, and marks exactly the messages with the role in their name that can be written |
| Directives.WaitingAfterTake | scripts/agent_daemon.py:970-979 | after a consuming read exactly those directives still wait for any other role whose file name lacks the reader's id or that could not be written |
| Directives.LeavesOthersExactly | scripts/agent_daemon.py:970-979 | a consuming read leaves another role's directives alone exactly if the reader's id occurs in the name of none of them, unwritable files aside |
| Text.JsonSuffixExactly | scripts/agent_daemon.py:971-971 | a JSON file is something followed by `.json` |
| Directives.ReadEmptiesLongerRoles | scripts/agent_daemon.py:970-979 | after a consuming read only unwritable directives wait for the role or any role whose id contains its id |
| Directives.JsonRoleTakesAll | scripts/agent_daemon.py:971-971 | a role called "json" consumes every directive, whoever it is for |
| Directives.RepeatedReadIsEmpty | scripts/agent_daemon.py:970-979 | a second consuming read with no arrivals in between returns nothing |
| Directives.DeliveredAtMostOnce | scripts/agent_daemon.py:970-981 | over every history a directive is delivered at most once more than its marking failed |
| Directives.DeliveriesExactly | scripts/agent_daemon.py:970-981 | over every history a waiting directive is delivered exactly as often as its marking failed, and once more if it is spent in the end |
| Directives.FirstReadDelivers | scripts/agent_daemon.py:970-979 | if every write succeeds, a due directive is delivered exactly once as soon as its role reads |
| IndentYaml.StackStepIsStack | scripts/org_role_preflight.py:77-83 | each line keeps the indents increasing, the root at the bottom, and every open mapping an entry of the one below |
| IndentYaml.StepKeepsMeaning | scripts/org_role_preflight.py:77-83 | reading one line into the stack leaves the meaning of the whole text unchanged |
| IndentYaml.StackRefinesMeaning | scripts/org_role_preflight.py:59-85 | the stack machine builds the tree of the recursive reading, for every list of lines |
| YamlLoader.PopModels | scripts/org_role_preflight.py:77-78 | after a pop the stacked references are still a root-to-node path that denotes the open mappings |
| YamlLoader.PushModels | scripts/org_role_preflight.py:81-83 | hanging and stacking a new dictionary keeps the references a path, with no other alias into it |
| YamlLoader.PopDeeper | scripts/org_role_preflight.py:77-78 | exactly the trailing entries not indented less than the line are popped, never the root, and what remains is still the path of open mappings |
| YamlLoader.RootCollapses | scripts/org_role_preflight.py:84-85 | at the end the root dictionary denotes what closing every open mapping yields |
| YamlLoader.MinimalYamlLoad | scripts/org_role_preflight.py:59-85 | the dictionaries mutated through the stack of references denote the recursive reading of the lines |
| YamlPrinter.ScalarReadsBack | scripts/org_role_preflight.py:34-56 | every printed string, boolean, null and integer coerces back to itself |
| YamlPrinter.PrintedLineReadsBack | scripts/org_role_preflight.py:66-81 | a printed line is read as its indent, key and value exactly when the key is trimmed, colon-free and neither a comment nor a list item |
| YamlPrinter.PrintThenLoad | scripts/org_role_preflight.py:34-85 | printing any nested mapping with any positive indent step and loading it gives the mapping back |
| YamlPrinter.PrintThenLoadText | scripts/org_role_preflight.py:66-85 | the same for the text of the printed lines |
| YamlTexts.ScalarExactly | scripts/org_role_preflight.py:34-56 | what every value text stands for, told from the text: a mapping if blank, a boolean or null exactly for the words in any case, an integer exactly for digits with an optional sign and single inner underscores, and which one, what the float conversion yields for a dotted text, the inside of matching quotes, and otherwise the text itself |
| YamlTexts.SkippedExactly | scripts/org_role_preflight.py:69-76 | the lines skipped are exactly the blank ones, comments, list items and those without a colon |
| YamlTexts.EntryExactly | scripts/org_role_preflight.py:73-81 | every other line is read as the number of blanks it begins with, the trimmed text before its first colon and the value of the text after it |
| Base64Url.DecodeInvertsEncode | src/cognitive_firm/identity_providers.py:221-230 | decoding with `-len % 4` restored padding inverts encoding for every byte string |
| Base64Url.EncodeIsClean | src/cognitive_firm/identity_providers.py:229-230 | encoded texts are ASCII without `.` and `=`, and never have length 1 modulo 4 |
| Base64Url.EncodeIsInjective | src/cognitive_firm/identity_providers.py:229-230 | different byte strings have different encodings |
| Base64Url.EncodeByAlphabet | src/cognitive_firm/identity_providers.py:229-230 | character `i` of an encoded text is the entry of the 64-character alphabet of section 5 of RFC 4648 for the `i`-th six bits of the bytes, and there are as many characters as that takes |
| Base64Url.FromCharExactly | src/cognitive_firm/identity_providers.py:221-222 | the decoder reads each character of that alphabet as its place in it, and `+` and `/` as the last two |
| Base64Url.ForeignIgnored | src/cognitive_firm/identity_providers.py:221-222 | a text beyond ASCII raises; other foreign characters are skipped but count when the padding is restored: a text decodes as what is left of it, unless that needs more padding than the text itself |
| Jwt.CreatedTokenAccepted | src/cognitive_firm/identity_providers.py:125-152 | a created token verifies to its own claims exactly when the MACs agree, now lies in [nbf, exp) and issuer and audience match |
| Jwt.AcceptedTokens | src/cognitive_firm/identity_providers.py:125-152 | exactly which texts are accepted at which time, and with which claims |
| Jwt.SignatureIsUnique | src/cognitive_firm/identity_providers.py:135-136 | for a fixed secret, header and payload segment at most one signature segment is ever accepted |
| Jwt.AcceptanceIsInterval | src/cognitive_firm/identity_providers.py:138-142 | the times at which a token is accepted form an interval, with the same claims throughout |
| Jwt.TimeExactly | src/cognitive_firm/identity_providers.py:138-142 | an unreadable expiry raises, an unreadable start raises unless the token has expired, and an expired or early token is rejected otherwise |
| Jwt.PartiesExactly | src/cognitive_firm/identity_providers.py:143-151 | issuer and audience are asked for only if the verifier has them; the audience claim may be a list that contains it |
| Jwt.RaisesExactly | src/cognitive_firm/identity_providers.py:125-152 | exactly which texts of three segments make the verifier raise |
| Jwt.OtherTextsRejected | src/cognitive_firm/identity_providers.py:125-130 | texts that are not three segments are rejected |
| Jwt.CreatedSegments | src/cognitive_firm/identity_providers.py:233-244 | the segments of a created token decode to the two header fields, the claims, and the MAC of the first two |
| Provisioning.ActorsConserved | src/cognitive_firm/identity_provisioning.py:107-125 | prior actor records stay as a prefix, and created plus existing add up to the plan |
| Provisioning.ActorsCovered | src/cognitive_firm/identity_provisioning.py:107-125 | when nothing is refused every planned actor is on record afterwards |
| Provisioning.CreatedActorsAreNew | src/cognitive_firm/identity_provisioning.py:108-111 | a record is created only for an actor on no earlier record, so duplicates in a plan create one |
| Provisioning.ActorsAgain | src/cognitive_firm/identity_provisioning.py:107-125 | applying the same actors again creates nothing, also after a plan that was refused half-way |
| Provisioning.WithoutExactly | src/cognitive_firm/orchestration/actor_identity.py:81-95 | registering an actor keeps exactly the rows of other actors |
| Provisioning.OneMoreActor | src/cognitive_firm/identity_provisioning.py:107-125 | a plan with one actor more does what the plan does and then reports, registers or refuses that actor |
| Provisioning.GrantsConserved | src/cognitive_firm/identity_provisioning.py:127-151 | prior memberships stay as a prefix, and created plus existing add up to the plan |
| Provisioning.GrantsCovered | src/cognitive_firm/identity_provisioning.py:127-151 | when nothing is refused an active record fits every planned membership |
| Provisioning.CreatedGrantsAreNew | src/cognitive_firm/identity_provisioning.py:128-138 | a membership is created only for a planned grant that no earlier record fits |
| Provisioning.GrantsAgain | src/cognitive_firm/identity_provisioning.py:127-151 | applying the same memberships again, at any later time, creates nothing |
| Provisioning.OneMoreGrant | src/cognitive_firm/identity_provisioning.py:127-151 | a plan with one grant more does what the plan does and then reports the first record that fits it, makes one, or is refused |
| Provisioning.PlanReaches | src/cognitive_firm/identity_provisioning.py:127-151 | after a plan that is not refused the actor is a member in a scope at a time exactly if he was before, or some grant of the plan found no active record fitting it at its turn, reaches the scope and has not expired |
| Provisioning.GrantReaches | src/cognitive_firm/orchestration/actor_membership.py:112-157 | the same for a single grant |
| Provisioning.RenewedExactly | src/cognitive_firm/orchestration/actor_membership.py:137-157 | in its own scope a grant puts the actor in force exactly if he was, or if no active record fitted it, expired or not, and it has not expired |
| Provisioning.ExpiredIsNotRenewed | src/cognitive_firm/orchestration/actor_membership.py:84-109 | the family where it does not: some active record fits the grant, so nothing is created, and if all such records have expired the actor stays out |
| Provisioning.UnscopedGrantReaches | src/cognitive_firm/orchestration/actor_membership.py:103-106 | an unscoped grant reaches a tenant and project at a time exactly if a record already did, or no active record fitted it and it has not expired |
| Provisioning.UnscopedGrantSkipped | src/cognitive_firm/orchestration/actor_membership.py:103-106 | the family where it reaches nothing new: a role held in one tenant only |
| Provisioning.FirstMatchExactly | src/cognitive_firm/orchestration/actor_membership.py:84-109 | a grant finds a record exactly if some record that is active has its actor and role, and in tenant and project the two agree or one is silent |
| Provisioning.FirstMatchIsFirst | src/cognitive_firm/identity_provisioning.py:128-138 | of several such records the first is found |
| Provisioning.ExistingWereFound | src/cognitive_firm/identity_provisioning.py:136-138 | the ids reported as existing are those of the records that planned grants found at their turn |
| Provisioning.RevokedPlayNoPart | src/cognitive_firm/identity_provisioning.py:127-151 | a plan creates and finds the same on a store without its revoked records, and is refused there exactly when it is here |
| Provisioning.RevokedIsGrantedAgain | src/cognitive_firm/identity_provisioning.py:127-151 | an actor whose records for the role are all revoked gets exactly one new record |
| Provisioning.MemberAtExactly | src/cognitive_firm/orchestration/actor_membership.py:112-157 | membership at a time, read off the fields of the records |
| Provisioning.InactiveNotMember | src/cognitive_firm/orchestration/actor_membership.py:112-157 | it is the same without the revoked records |
| Provisioning.GrantsRefusedExactly | src/cognitive_firm/orchestration/actor_membership.py:57-64 | a plan is refused exactly when a grant with a blank actor, role, granter or basis comes up that no record fits by then |
| Provisioning.ActorsRefusedExactly | src/cognitive_firm/orchestration/actor_identity.py:74-78 | the actors are refused exactly when one with a blank id or name or an unknown kind comes up who is neither on record nor earlier in the plan |
| Provisioning.Directory.ApplyProvisioningPlan | src/cognitive_firm/identity_provisioning.py:91-158 | both loops leave the stores and report of the recursive application, and a refusal leaves what was done before it |
| CsvLists.CsvOfJoin | src/cognitive_firm/identity_providers.py:202-203 | joining non-empty, trimmed, comma-free parts and splitting again is the identity |
| CsvLists.CsvIdempotent | src/cognitive_firm/identity_providers.py:202-203 | for every text, splitting its re-joined parts gives the same parts |
| CsvLists.ListAndTextAgree | src/cognitive_firm/identity_providers.py:206-213 | a list claim equals its comma-separated text exactly when no part contains a comma |
| CsvLists.OtherClaimExactly | src/cognitive_firm/identity_providers.py:206-213 | a claim that is neither text nor list is its own only part unless blank, and a missing one has none |
| ReadmeIndex.RefreshShape | scripts/gen_folder_index.py:29-42 | a refreshed README keeps everything up to the end of the start line and the suffix after the first end marker up to trailing white space |
| ReadmeIndex.RefreshIdempotent | scripts/gen_folder_index.py:29-42 | refreshing twice is refreshing once exactly when no end marker stands on the start line or in the index, also when it was missing at first; otherwise the text grows |
| ReadmeIndex.ReadmeMarkersSensible | scripts/gen_folder_index.py:9-10 | the tool's own markers meet what the above asks of markers |
| ReadmeIndex.RefreshExactly | scripts/gen_folder_index.py:28-37 | a text without the start marker is left alone, and one with it is refused exactly if no line feed follows its first start marker |
| ScriptJson.EscapeIsPerCharacter | demos/self_evolving_org/daemon_smoke.py:1119-1125 | the three chained replacements act on each character separately |
| ScriptJson.EscapedIsInert | demos/self_evolving_org/daemon_smoke.py:1119-1125 | no `<`, `>` or `&` is left in any escaped text |
| ScriptJson.EscapedReadsTheSame | demos/self_evolving_org/daemon_smoke.py:1119-1125 | every JSON text reads as the same tokens after escaping: each string literal decodes to the same characters |
| ScriptJson.EmbeddedReadsBack | demos/self_evolving_org/daemon_smoke.py:1119-1125 | any text printed as a JSON string, escaped and put into the script, is read as the same code units, and contains no `<`, `>` or `&` |
| ScriptJson.PrintedReadsBack | demos/self_evolving_org/daemon_smoke.py:1121-1121 | a string as the JSON printer writes it, with everything beyond printable ASCII escaped, reads as its code units whatever follows |
| ScriptJson.UnclosedFails | demos/self_evolving_org/daemon_smoke.py:1121-1121 | a literal that is not closed cannot be read |
| ScriptJson.ControlFails | demos/self_evolving_org/daemon_smoke.py:1121-1121 | nor can one with a raw control character |
| Timeline.BuildTimelineGraph | demos/self_evolving_org/daemon_smoke.py:972-1050 | the graph is one path of distinct ids from the daemon through run and checkpoints to the completed task, its edges exactly the consecutive pairs |
| Timeline.BuildEdges | demos/self_evolving_org/daemon_smoke.py:1018-1038 | the edges collected by remembering the previous id are the consecutive pairs of the nodes, with the label of the step they lead to |
| Timeline.IdsDistinct | demos/self_evolving_org/daemon_smoke.py:975-1017 | no two steps share an id, whatever the run id and the checkpoint names are |
| Timeline.EdgesLeadForward | demos/self_evolving_org/daemon_smoke.py:1018-1038 | every edge leads from a node to the next one, so the graph has no cycle |
| Timeline.StepsShown | demos/self_evolving_org/daemon_smoke.py:975-1017 | what the nodes show, in order; a run node exactly if the dispatch has a run id |
| Timeline.EdgesShown | demos/self_evolving_org/daemon_smoke.py:1018-1038 | how the edges are labelled, in order |
| EventOrder.AssertInOrder | scripts/a2a_delegation_command_conformance.py:388-396 | the greedy cursor accepts exactly the logs of which the expected events are a subsequence |

## Left out

- Races between two live gate resolvers: one writer acts at a time; others act between the daemon's disk steps only at the start of each pass of the wait loop. The app resolver's tolerance of a question that vanishes while it answers shows only in such a race.
- `GateCache.CacheShowsExactly` is about runs whose resolve requests are not cut off, and whose ticks that wait with an unsound cache are neither cut off nor joined by other processes: a process that dies before its first write, or an answer that another one gives in the same words during the same wait, hides the difference on disk.
- The caches of other daemon processes: they act as resolvers without one.
- Gates that other modules open (goal escalations): their names lie outside the proposal pattern, and nothing here opens or answers them.
- Leases, authentication and request parsing in front of the app resolver: it gets a gate id and an option text.
- Collisions of freshly drawn ids: a tick draws a gate id that no file of the gate directory carries, and memberships are told apart by their records, not by their drawn ids.
- Failing disk writes other than by a crash, and a torn append to the transition log: appending one entry is one step.
- Texts inside gate files beyond id, owner, subject, status, options and chosen option (summary, timestamps, session, candidate): they are carried along unread. Option and status texts are modelled after their conversion to lower case.
- What the log entries carry besides gate, role, subject and answer, and the entries of the kernel modules around the tick (leases, attestations, runtime checkpoints).
- `authorize_dispatch`, `claim_goal`, the discovery and ranking of candidates other than resolved gates, the pre-tick checks and the agent run itself: their results are arbitrary inputs of a tick, and a tick may also end in an exception after the run.
- The cadence of the main loop, the sending of Telegram messages, Markdown and HTML rendering, prompt texts and argument parsing: nothing there carries state that the theorems speak of.
- Polling Telegram for control verbs before a tick, and the update offsets and authorisation of inbound messages: messages arrive as a list of authorised ones.
- White space and letter case beyond ASCII and Latin-1, and line breaks other than line feeds in the YAML subset.
- Float scalars of the YAML subset: the host's conversion is an arbitrary function, and floats are not printed. The host's limit on the digits of an integer is not modelled.
- HMAC, JSON and UTF-8 of the tokens: arbitrary functions; the round trip of JSON is a hypothesis of `Jwt.CreatedTokenAccepted` alone. Time is an integer number of seconds.
- The directory walk and the rendering of the index in the README tool: the index is an arbitrary text.
- Metadata and timestamps other than creation times in the provisioning records, malformed stored records, and concurrent writers of the record files.
- Files of resolved gates whose JSON is not an object of the shape the resolvers write; their order by modification time is the order of the given listing.
- The sorting of directive files by name: the directory is given as its sorted listing, and new files may arrive anywhere in it.
- Values other than text in JSON beyond string literals: the lexer keeps characters outside literals as they are.
