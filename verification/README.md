# Squash RMM, verified

A Dafny model of the parts of Squash RMM whose correctness is hardest to see by
reading: how an approved repair survives crashes without running twice, how a
job reaches exactly one end, how output is cut to a byte limit on both sides,
and how restarts, investigations, deadlines and the text encodings behave on
every input.

`dafny verify dfyconfig.toml` checks everything.

## How it is laid out

| files | what they model |
|---|---|
| `Tables`, `Stores` | the durable tables as values, one function per committed write, and the store that performs those writes in place |
| `Approvals`, `Protocol`, `ProtocolInvariant`, `ProtocolPreservation`, `ProtocolTheorems`, `ProtocolRequests`, `ProtocolWitness` | planning, approval and authorisation; the repair protocol as a state machine over single committed writes, with a crash possible between any two; its invariant and what follows from it over whole runs |
| `Decisions`, `Appliers`, `Refinements` | the decision route and the repair task, undisturbed, in the source's own imperative form, and how they and a send are paths of the protocol |
| `Jobs`, `JobStores`, `Registry`, `ControlPlane`, `Supervision` | a job's two copies, the in-memory job store, live connections, the handlers that move jobs and the supervisor's deadline |
| `Unicode`, `OutputCapture`, `LimitOutput` | UTF-16 and UTF-8 (section 3 of RFC 3629), the agent's streaming cutter, the server's batch cutter |
| `Joins`, `Attestation` (with `Decimal`) | the signed summary of a result |
| `Fencing`, `Templates`, `Diagnostics`, `Signatures` | marker defusing, script templates, argument validation, signatures of checks |
| `Limits`, `Investigator`, `Polling` | the investigation budget, the model-driven loop, the deadline loop |
| `Reboots`, `Uptime`, `RestartTruth` | restart records, reboot detection, and what a confirmed restart means on the machine |

A run of the protocol starts from empty tables with the process down. One event
is one committed store call, one put on a device's queue, or one in-memory move
between them. Handlers and worker threads interleave freely, a crash drops every
party in progress, and startup orphans jobs and then recovers investigations. A
posted repair may be delivered at any later time and any number of times. The
history a state carries (what was queued, answered and decided) is read by the
theorems only.

The two hashes, the repair catalogue and the operator name behind the worker's
key are parameters: every theorem holds whatever they are. Clock readings are
parameters too, or arbitrary values.

## Where the code does not do what it says

Each of these is stated as the code behaves: an input on which it fails, and the
exact condition under which it holds.

- "Any line in it shaped like a marker is defused" and a block has only its own
  two markers: content that begins `BEGIN UNTRUSTED` or `END UNTRUSTED` is
  completed by the header's own closing dashes (`Fencing.MarkersOfBlock`).
- Memory is "written through to SQLite": a refused insert leaves the record in
  memory, and a result whose text is not encodable changes memory only. An empty
  idempotency key used twice and a rejected result with an unpaired surrogate in
  its claimed hash do this (`Jobs.AgreementExactly`,
  `Jobs.EmptyKeyIsRefusedTwice`, `Jobs.UnstorableRejectionComesBack`). A script
  with an unpaired surrogate would too, but request validation refuses it.
- The agent's and the server's attestation strings must match byte for byte:
  the agent formats integers in the current culture, so they differ for negative
  exit codes under a culture whose minus sign is not "-"
  (`Attestation.SidesCoincide`).
- "Repeating the same check with the same arguments": the signature identifies a
  check only once its arguments are validated, and it is computed before: a
  refused text uses up the repeats of the number it spells
  (`Signatures.UnvalidatedSignaturesCollide`, `Limits.RefusedChecksUseUpRepeats`).
- Names "may contain only letters, digits, underscore, dot and hyphen": one
  final line break is accepted as well (`Diagnostics.NamesExactly`).
- "Only measurement jitter is tolerated": a report error above 2.5 s, or a wall
  clock off by more than 900 s less twice that error across a restart of the
  control plane, can invent a reboot (`Uptime.SafeExactly`).

## Model

| member | source | states |
|---|---|---|
| `ProtocolTheorems.AtMostOneDispatchPerKey` | server/main.py:398-439 | over every run, crashes included, an idempotency key reaches an outbound queue at most once |
| `ProtocolTheorems.AtMostOneDispatchPerJob` | server/main.py:431-439 | over every run a job row is queued to a device at most once, keyed or not |
| `ProtocolTheorems.AtMostOneProposal` | server/store.py:763-787 | over every run an investigation has at most one proposal row at any time |
| `ProtocolTheorems.AtMostOneRepair` | driver/remediation.py:275-279 | over every run at most one repair is ever dispatched for an investigation, whatever the interleaving of decisions, workers, crashes and recoveries |
| `ProtocolTheorems.EveryRepairWasApproved` | server/investigations.py:308-338 | every repair a worker dispatches was approved: a write-once approval, taken on a waiting, unexpired row by a request carrying its binding; the script is the catalogue's for the reviewed repair and arguments, and was authorised within 900 s of the decision |
| `ProtocolTheorems.DecisionsAreFinal` | server/store.py:789-804 | from the moment a proposal is decided, its row and the record of how it was decided never change again |
| `ProtocolTheorems.AcceptedDecisionsStand` | server/main.py:1428-1459 | from the moment a decision request is answered as accepted, whoever won the race, the row it named is decided as it asked for the rest of the run |
| `ProtocolTheorems.AnswersAgree` | server/main.py:398-413 | all accepted calls under one key, across crashes, are answered with the same job and asked for the same device, script, timeout and operator |
| `ProtocolTheorems.RecoveryClassifies` | server/store.py:806-870 | from every reachable state recovery restarts exactly the interrupted diagnoses from a clean snapshot, resumes exactly the approved repairs, carries out recorded rejections and leaves exactly the undecided proposals waiting; an approval is never found missing |
| `ProtocolTheorems.RecoveryLeavesTheRest` | server/store.py:826-870 | recovery leaves finished investigations and decided proposals exactly as they are, and rewrites no proposal it keeps |
| `ProtocolTheorems.RecoveryIsIdempotent` | server/store.py:806-870 | recovering again with no progress in between changes no table and returns the same work |
| `ProtocolTheorems.EchoedDecisionIsRecorded` | server/main.py:1413-1453 | in every reachable state a decision echoing the row's own binding is recorded exactly when the row is undecided, awaiting approval and, to approve, unexpired |
| `ProtocolTheorems.ApprovedRowIsAuthorized` | driver/remediation.py:125-160 | in every reachable state an approved row is authorised exactly while its approval is fresh, and for the script that was reviewed |
| `ProtocolTheorems.RunInvariant` | server/main.py:125-136 | the protocol's invariant holds in every state of every run |
| `ProtocolPreservation.StepPreserves` | server/investigations.py:73-92 | every event of the protocol (request, worker step, dispatch step, crash, orphaning, recovery) keeps its invariant |
| `ProtocolPreservation.DecidePreserves` | server/main.py:1407-1476 | every step of a decision keeps the tables and every other party consistent |
| `ProtocolPreservation.StartPreserves` | server/investigations.py:170-235 | every step of diagnosis and planning, failing ones included, keeps the tables consistent |
| `ProtocolPreservation.ApplyPreserves` | server/investigations.py:308-353 | every step of applying a repair keeps the tables consistent |
| `ProtocolPreservation.SendPreserves` | server/main.py:388-439 | every step of sending a job keeps keys unique and each job queued at most once |
| `ProtocolPreservation.RecoverPreserves` | server/investigations.py:103-108 | recovery and the tasks it schedules keep the tables consistent |
| `ProtocolRequests.OneInvestigationPerRequest` | server/store.py:630-656 | over every run one request id of one operator has at most one investigation |
| `ProtocolWitness.RepairIsDispatched` | server/investigations.py:308-338 | there is a run from the initial state in which an approved repair is dispatched, so the theorems above are not about an idle system |
| `Approvals.ApprovedPlanIsAuthorized` | driver/remediation.py:118-160 | what the planner proposed and a human approved is authorised exactly while the approval is fresh, and for exactly the script shown |
| `Approvals.TamperedProposalIsRefused` | driver/remediation.py:136-160 | whatever a proposal says when it is applied, an approval authorises only the action it was granted for |
| `Approvals.AuthorizedExactly` | driver/remediation.py:125-160 | a script is authorised exactly if there is something to apply, the approval is for this action as it stands and at most 900 s old, and the catalogue still builds the script that was approved and stored |
| `Approvals.ProposedExactly` | driver/remediation.py:209-245 | a plan shows the repair picked with the catalogue's script, risk and verification for it, or why there is none |
| `Approvals.StoredExactly` | server/investigations.py:238-294 | a proposal is stored undecided, bound by its hash with everything shown, and open for 900 s exactly if there is something to approve |
| `Approvals.RowIsGrant` | server/investigations.py:324-328 | the approval rebuilt from a decided row is the one granted when it was decided |
| `Decisions.Investigations.Decide` | server/main.py:1407-1476 | a request is accepted exactly if it carries the id, hash and device of the stored proposal and that is decided the same way, or undecided, awaiting and, to approve, unexpired, and each refusal is given exactly in its case; an accepted request's proposal is then decided as it asked, a waiting status follows and an approval starts the repair; nothing else changes |
| `Decisions.Investigations.ScheduleApply` | server/investigations.py:73-100 | one apply task per investigation |
| `Decisions.DecidingAgainChangesNothing` | server/main.py:1428-1440 | sending the same decision again is accepted and changes nothing |
| `Decisions.StepsAmountToDecide` | server/main.py:1407-1476 | the protocol's decision steps, with nobody in between, leave exactly the tables and scheduled repairs the route leaves, whether the request records a decision, heals one left waiting, repeats one or is declined |
| `Appliers.Apply` | driver/remediation.py:254-301 | nothing is done unless authorised; otherwise the precondition is checked, exactly if it held just then the authorised script is posted once under the proposal's key, applied exactly if that post came back with an end, and exactly if that end is clean the verification is checked, whose verdict is what is reported as resolved |
| `Appliers.RunApply` | server/investigations.py:308-353 | the task around it: nothing unless the investigation is applying, a failure without an approved proposal, and otherwise resolved exactly if a verification came last and succeeded, failed with the reason exactly if no post came back with an end, and unresolved if neither |
| `Refinements.TaskFollowsProtocol` | server/investigations.py:308-353 | what the task does, undisturbed, is a path of the protocol's steps: the same tables, exactly the post it made and exactly the verdict its verification found |
| `Refinements.PostCarriesKey` | driver/remediation.py:275-279 | that post is sent for the same device, script and timeout and under the proposal's own key |
| `Refinements.SendFollowsProtocol` | server/main.py:388-439 | what a send does, undisturbed, is a path of the protocol's steps: the same rows, the same queued message and the same answer |
| `Refinements.StaysReachable` | server/main.py:125-136 | so both stay within the states the theorems over runs speak of |
| `Stores.Store.RecoverInvestigations` | server/store.py:806-870 | the recovery loop leaves the tables and work list recovery is specified to leave, each investigation at most once |
| `Stores.Store.RecoverOne` | server/store.py:834-868 | the writes for one interrupted investigation, and the work they leave |
| `Stores.Store.SelectInterrupted` | server/store.py:820-830 | every unfinished investigation once, with the outcome on its newest proposal |
| `Stores.Store.GetCurrentProposal` | server/store.py:779-787 | a newest proposal of the investigation, or none exactly when it has none |
| `Stores.CurrentExists` | server/store.py:783-786 | ordering by creation time finds a row whenever there is one |
| `Stores.Store.RecordProposalDecision` | server/store.py:789-804 | compare-and-set: only the first decision is recorded, and only its caller wins |
| `Stores.Store.ClaimQueuedInvestigation` | server/store.py:872-880 | only a queued investigation is claimed, by one caller |
| `Stores.Store.SetInvestigationStatus` | server/store.py:698-703 | writes the status of one investigation and nothing else |
| `Stores.Store.CreateInvestigation` | server/store.py:630-656 | creates unless the id or the operator's request id is taken, and returns the row of that request |
| `Stores.Store.CreateProposal` | server/store.py:763-777 | a proposal id is inserted once |
| `Stores.Store.InsertJob` | server/store.py:532-541 | accepted exactly when the id and key are free and the script is encodable; then one new queued row is there, every earlier row is as it was and keys stay unique |
| `Stores.Store.JobForIdempotencyKey` | server/store.py:543-551 | finds the job of a key exactly when there is one |
| `Stores.Store.CompleteJob` | server/store.py:566-577 | stored exactly when the text is encodable; then the job has this end, what it was created with and when it was sent stay, and no other row changes |
| `Stores.Store.OrphanActiveJobs` | server/store.py:617-626 | leaves no row in flight: finished rows are as they were, and the others failed now, keep what they had and say why |
| `Tables.AddedExactly` | server/store.py:532-541 | one new queued row and nothing else is exactly the insert the protocol's runs use |
| `Tables.FinishedExactly` | server/store.py:566-577 | one row ended and nothing else is exactly the update the job events use |
| `Tables.OrphanedExactly` | server/store.py:617-626 | no row left in flight is exactly the startup write of the protocol and of the job events |
| `Tables.InsertedIsFound` | server/store.py:543-551 | after an accepted insert its key leads to that job and to no other |
| `Tables.OrphaningAgain` | server/store.py:617-626 | orphaning again, as a crash during startup makes happen, changes nothing |
| `Jobs.RowsAdvance` | server/jobs.py:141-161 | over every sequence of events a job row is never deleted, never moves back, keeps what it was created with, and once terminal never changes |
| `Jobs.TerminalJobsStay` | server/jobs.py:150-158 | in memory a terminal job is forgotten or stays exactly as it is, whatever late results, acceptances and revocations follow |
| `Jobs.AgreementStep` | server/jobs.py:83-105 | from agreement of memory and row, one event keeps it exactly when its insert is accepted and its result is encodable |
| `Jobs.AgreementExactly` | server/jobs.py:150-158 | over a whole run memory and SQLite always agree, and every unfinished row has its job in memory, if and only if every write is accepted |
| `Jobs.EvictionKeepsViews` | server/jobs.py:110-131 | forgetting finished jobs changes nothing a reader sees but the round-trip figure |
| `Jobs.RestartSettlesRows` | server/store.py:617-626 | startup leaves no row in flight and touches no finished one |
| `Jobs.RestartAgrees` | server/main.py:125-132 | whatever disagreement was left behind, after a restart memory and SQLite agree |
| `Jobs.NextDoes` | server/jobs.py:83-161 | what every event does to memory and row, in which case, and that it touches no other job |
| `Jobs.ViewsShow` | server/jobs.py:29-74 | a view shows each field of the record or row under its own name, and the round trip within half a millisecond |
| `Jobs.EmptyKeyIsRefusedTwice` | server/main.py:398-399 | an empty idempotency key is not looked up but is unique, so its second use leaves a job without a row |
| `Jobs.UnstorableResultComesBack` | server/jobs.py:120-158 | in any state, a result that cannot be stored ends the job in memory only, and once evicted the job reads as it did in flight |
| `Jobs.UnstorableRejectionComesBack` | server/main.py:1250-1252 | such a result exists: a rejection that quotes a claimed hash with an unpaired surrogate, for a job that was created and dispatched |
| `Jobs.RoundsToNearest` | server/jobs.py:48-54 | the round trip is rounded to the nearest millisecond, a tie to the even one |
| `Jobs.AfterKeepsValid` | server/jobs.py:75-161 | a row follows its job in memory over every run, storable or not |
| `JobStores.JobStore.Create` | server/jobs.py:83-105 | the record is in memory, and in a row exactly when the insert was accepted |
| `JobStores.JobStore.ViewJob` | server/jobs.py:110-115 | memory first, then history |
| `JobStores.JobStore.MarkDispatched` | server/jobs.py:141-144 | is the dispatch event on both copies |
| `JobStores.JobStore.MarkRunning` | server/jobs.py:146-148 | is the acceptance event on both copies |
| `JobStores.JobStore.Complete` | server/jobs.py:150-158 | is the finishing event on both copies: the first terminal state wins |
| `JobStores.JobStore.Fail` | server/jobs.py:160-161 | finishes with an error and no output |
| `JobStores.JobStore.Active` | server/jobs.py:117-118 | exactly the unfinished jobs, each once |
| `JobStores.JobStore.EvictFinished` | server/jobs.py:120-131 | drops exactly the jobs finished before the cutoff, and counts them |
| `Registry.DeviceConnection.DrainPending` | server/registry.py:27-33 | empties the queue and counts what was dropped |
| `Registry.DeviceRegistry.Remove` | server/registry.py:57-59 | a replaced connection does not remove its replacement |
| `ControlPlane.ControlPlane.SendToDevice` | server/main.py:388-439 | exactly when each answer is given: a reused key is answered with its job if the request is the same and refused if not, and creates nothing; otherwise an enrolled, unrevoked, reachable device is sent the job, which is then in memory and in its row as asked for and dispatched, and queued once, and the insert fails exactly for an unencodable script or a second empty key |
| `ControlPlane.ControlPlane.Screen` | server/main.py:398-429 | a used key is a duplicate exactly when device, script, timeout and operator are the same as under it and a conflict otherwise; each other refusal is given exactly in its case |
| `ControlPlane.ControlPlane.JobAccepted` | server/main.py:1200-1204 | makes the device's own job Running in both copies if it is Dispatched, and otherwise changes nothing |
| `ControlPlane.ControlPlane.HandleResult` | server/main.py:1210-1237 | a result ends only the device's own unfinished job: a verified one with its state, exit code, duration and each stream under its own name, all of it if it fits and else as many whole characters as fit, flagged exactly then or if it was before; a rejected one as Failed with the reason and no output; in memory always, and in the row exactly if it is encodable |
| `ControlPlane.ControlPlane.Receive` | server/main.py:1188-1207 | whatever a device sends, it was heard from and is reachable; only an acceptance or a result of its own job moves a job |
| `ControlPlane.ControlPlane.Connect` | server/main.py:905-935 | an enrolled, unrevoked device gets a connection that replaces the one before it and is reachable; no other device's connection and no job changes |
| `ControlPlane.Startup` | server/main.py:125-132 | startup leaves no job row in flight, recovers the investigations as specified, and begins with memory and SQLite in agreement |
| `ControlPlane.ControlPlane.Tick` | server/main.py:106-121 | a tick forgets exactly the jobs finished more than a minute before, leaves an unfinished job exactly as it is if its device is live and its age at most timeout + 5 s, and otherwise ends it: Unreachable exactly if the device is not live, TimedOut exactly if it is |
| `ControlPlane.ControlPlane.SuperviseAll` | server/main.py:111-121 | the loop applies the rule to every active job and to no other |
| `ControlPlane.ActiveAfterTick` | server/main.py:111-121 | after a tick every active job has a reachable device and age at most timeout + 5 s |
| `ControlPlane.ControlPlane.RevokeDevice` | server/main.py:328-350 | makes exactly the device's unfinished jobs Unreachable and leaves every other job as it is, empties its queue and closes its connection |
| `Supervision.DoneByDeadline` | server/main.py:106-121 | with ticks at most d apart a job is finished within timeout + 5 s + d of its dispatch, whatever happens in between |
| `OutputCapture.ReadAsync` | src/SquashRmm.Agent/OutputCapture.cs:22-46 | the capture is the longest whole-character prefix that fits, however the reads split the stream, and the flag is set exactly when something was discarded |
| `OutputCapture.Utf8Budget.AppendOne` | src/SquashRmm.Agent/OutputCapture.cs:63-84 | one unit keeps the budget exact: everything appended is kept, pending or discarded |
| `OutputCapture.Utf8Budget.Append` | src/SquashRmm.Agent/OutputCapture.cs:61-85 | a chunk is appended wholly, or discarded from the first character that does not fit |
| `OutputCapture.Utf8Budget.Finish` | src/SquashRmm.Agent/OutputCapture.cs:87-91 | what is kept and the flag are those of the specification, a trailing lone surrogate included |
| `OutputCapture.Utf8Budget.Keep` | src/SquashRmm.Agent/OutputCapture.cs:95-105 | keeps a character exactly when it fits in 32-bit arithmetic |
| `OutputCapture.CutIsTheLongest` | src/SquashRmm.Agent/OutputCapture.cs:48-52 | the cut is exactly the longest prefix that splits no surrogate pair and whose UTF-8 fits |
| `OutputCapture.CutKeepsAll` | src/SquashRmm.Agent/OutputCapture.cs:12-15 | nothing is discarded exactly when everything fits |
| `OutputCapture.CutAfter` | src/SquashRmm.Agent/OutputCapture.cs:61-85 | text that fits is kept and the budget left goes to what follows |
| `Unicode.DecodeEncoded` | server/protocol.py:180-184 | decoding with errors ignored undoes encoding, even with bytes after it |
| `Unicode.KnownEncodings` | server/protocol.py:180-184 | encoded lengths are those of RFC 3629, ASCII is itself, and known characters of each length, surrogate pairs and lone surrogates come out as they should |
| `Unicode.CutCharacterVanishes` | server/protocol.py:183 | the bytes of a character cut short decode to nothing |
| `Unicode.RepairIsScalars` | server/protocol.py:63-68 | replacing the surrogates left after JSON decoding gives what .NET would have encoded |
| `LimitOutput.LimitOutput` | server/protocol.py:170-185 | each stream is limited on its own, and nothing else changes |
| `LimitOutput.CutDecodes` | server/protocol.py:180-184 | cutting the bytes and ignoring what no longer decodes keeps exactly the characters that fit |
| `LimitOutput.CuttersAgree` | server/protocol.py:170-185 | for every stream and limit the server's cut of the repaired text is the repaired capture, with the same flag |
| `LimitOutput.HonestOutputIsUntouched` | server/protocol.py:173-179 | the limit never changes what an honest agent sent |
| `LimitOutput.LimitedIsWithin` | server/protocol.py:170-185 | a limited stream is within the limit, a prefix of what was sent, and limiting again changes nothing |
| `LimitOutput.LimitedIsHeld` | server/protocol.py:170-185 | a limited stream is all of what was sent if that fits, and otherwise as many whole characters as fit, flagged if anything was dropped now or before |
| `Attestation.AttestationInjective` | server/protocol.py:202-214 | different executions never sign the same bytes, even when the job id contains the separator |
| `Attestation.SidesCoincide` | src/SquashRmm.Protocol/Job.cs:36-45 | agent and server sign the same bytes exactly when the exit code is absent or not negative, or the agent's culture writes a plain minus sign |
| `Attestation.SignedText` | server/protocol.py:202-214 | the text that is signed, field by field |
| `Decimal.StrInjective` | server/protocol.py:205-212 | decimal text determines the number |
| `Joins.JoinInjective` | driver/limits.py:103-105 | joining separator-free, non-empty fields loses nothing |
| `Fencing.DefusingLeavesNoMarker` | driver/fencing.py:22-28 | no substring of defused content matches the marker shape, not even across a replacement's boundary |
| `Fencing.UnmarkedIsKept` | driver/fencing.py:22-28 | content without a marker is left exactly as it is |
| `Fencing.FirstMarkerIsReplaced` | driver/fencing.py:22-28 | everything before the first marker is kept, the marker is replaced, and what follows is defused in turn |
| `Fencing.FencedWhole` | driver/fencing.py:26-31 | the block is the header line, the defused content and the footer line, as written |
| `Fencing.MarkersOfBlock` | driver/fencing.py:26-31 | the markers of a fenced block are its header, its footer and, exactly when the content begins like the rest of a marker, the header's closing dashes |
| `Fencing.ContentCompletesHeader` | driver/fencing.py:29-30 | content beginning END UNTRUSTED makes a third marker with the header's closing dashes |
| `Fencing.MatchIsMarker` | driver/fencing.py:22 | the matcher finds a match at a position exactly when one exists, and it is the only one |
| `Templates.FormatOfPs` | driver/diagnostics.py:68-74 | compiling and then formatting is one simultaneous substitution of the markers, for every script and values, down to which error is raised |
| `Templates.SucceedsExactly` | driver/diagnostics.py:68-74 | formatting succeeds exactly when every marker is a declared name that Python does not read as a position; no script fails for its braces |
| `Templates.MarkerExactly` | driver/diagnostics.py:74 | a marker is a name of word characters between double angle brackets |
| `Templates.UnmarkedIsCopied` | driver/diagnostics.py:68-74 | a script without a marker comes out as it is |
| `Templates.FirstMarkerIsSubstituted` | driver/diagnostics.py:68-74 | up to its first marker a script is copied, the marker becomes its name's value, and what follows is substituted in turn |
| `Diagnostics.Build` | driver/diagnostics.py:85-108 | unknown, missing and invalid arguments are refused in that order; the rest are formatted |
| `Diagnostics.BuiltExactly` | driver/diagnostics.py:85-108 | a compiled script is built exactly when the arguments are the declared ones, all accepted, and every marker is a parameter; the text is the script with its markers replaced at once |
| `Diagnostics.RefusedExactly` | driver/diagnostics.py:85-108 | each refusal exactly in its case: an undeclared name, then a missing one, then the first declared one whose value is refused |
| `Diagnostics.NamesExactly` | driver/diagnostics.py:34-48 | a name argument is accepted exactly when it is one to the maximum of name characters, or that and one final line break |
| `Diagnostics.NumbersExactly` | driver/diagnostics.py:24-31 | a number argument is accepted exactly when it is a whole number in the range, and no truth value |
| `Diagnostics.HostsExactly` | driver/diagnostics.py:51-65 | a host argument is accepted exactly when it is up to 253 characters of labels put together with dots, with an optional dot and an optional line break at the end |
| `Diagnostics.AcceptedCharacters` | driver/diagnostics.py:24-65 | an accepted value holds only name characters and at most one line break, at its end |
| `Diagnostics.AcceptedStrInjective` | driver/diagnostics.py:24-65 | two values one validator accepts print alike only if they are equal |
| `Signatures.SignatureIgnoresOrder` | driver/limits.py:103-105 | the order in which arguments were given makes no difference |
| `Signatures.SameSignatureIsSameCheck` | driver/limits.py:69-75 | on validated arguments two checks have one signature exactly when they are the same check |
| `Signatures.UnvalidatedSignaturesCollide` | driver/limits.py:103-105 | for every whole-number parameter, an accepted number and its text, which is refused, share a signature |
| `Signatures.SignatureTellsExactly` | driver/limits.py:103-105 | validated or not, where no name or printed value holds the signature's punctuation, signatures are equal exactly when the diagnostics are and the same names print the same values |
| `Limits.RefusedChecksUseUpRepeats` | driver/limits.py:69-75 | so an accepted check that never ran is refused as repeated after its text was refused twice |
| `Limits.Budget.Check` | driver/limits.py:49-75 | which bound refuses, in order |
| `Limits.Budget.RecordAttempt` | driver/limits.py:77-88 | every attempt is counted once, by outcome and by signature |
| `Limits.RecordKeepsWithin` | driver/limits.py:49-88 | an allowed attempt keeps attempts equal to successes and failures and to the sum of repeats, each within its bound |
| `Limits.RefusedExactly` | driver/limits.py:49-75 | each bound refuses exactly when it is reached and no earlier one is |
| `Limits.RecordedExactly` | driver/limits.py:77-88 | an attempt adds itself, to its kind, its output if it succeeded and its signature's count, and nothing else |
| `Limits.MostIsReached` | driver/limits.py:21-39 | the bound on attempts is met by some sequence of allowed attempts |
| `Investigator.RunOne` | driver/investigator.py:234-281 | a malformed or refused call dispatches and records nothing; any other is one attempt with its outcome, dispatched unless its arguments are invalid; an escaping exception records nothing |
| `Investigator.RunCalls` | driver/investigator.py:211-219 | every call of a reply is taken and answered in order, even after a refusal, and the last refusal is the one reported |
| `Investigator.TakenAllKeepsWithin` | driver/investigator.py:211-281 | the calls of one reply, however many, keep the usage within its bounds and dispatch at most once per attempt |
| `Investigator.TakenOverKeepsWithin` | driver/investigator.py:183-228 | so do the calls of all turns together, up to and including the one that ends the loop |
| `Investigator.Investigate` | driver/investigator.py:174-232 | for every sequence of replies: the loop ends at the first turn that ends it, in the way that turn calls for; steps, usage and dispatches are what the calls of the turns until then come to; dispatches stay within the bound, repeats within their limit, and every tool call is answered right after it is made |
| `Investigator.InvestigateByDefault` | driver/investigator.py:166-171 | at most seventeen dispatches with the default budget, and no check more than twice |
| `Polling.Session.AwaitTerminal` | driver/rmm.py:251-278 | ends within ceil(remaining / 0.25) polls with the first terminal answer, the first failure or the deadline; each poll is given at most the time left when the request before it was answered, and all that is left, or ten seconds, when it is sent, but for the 1 ms floor; it sleeps at most 0.25 s a poll |
| `Polling.MostPollsExactly` | driver/rmm.py:251-278 | that bound is the least number of quarter seconds that covers the time left |
| `Polling.Session.RunRaw` | driver/rmm.py:230-249 | one expiry, set between the call and its first request, covers one post and every poll after it, each given at most what is left of it |
| `Polling.Session.RunDiagnostic` | driver/rmm.py:174-199 | the same for a diagnostic's own deadline |
| `Reboots.RecordsOnlyAdvance` | server/reboots.py:64-115 | over all events a restart's status only moves forward, at most three times, and a closed record keeps its outcome |
| `Reboots.RecordsStayCoherent` | server/reboots.py:64-115 | from insertion on, over all events, a record explains itself: completed means it came back, confirmed or with the reason why not; not restarted means it went offline and came back without a boot; failed says why; an open one says nothing |
| `Reboots.RecordsStayDated` | server/reboots.py:64-81 | a scheduled or offline record always says since when |
| `Reboots.BootConfirmedExactly` | server/reboots.py:84-100 | a new boot is confirmed exactly when a return judged a reboot closed the restart |
| `Reboots.NextBecomes` | server/reboots.py:64-115 | what every event makes of a record, case by case, commands that ran or did not included |
| `Reboots.WatchedRestartsClose` | server/main.py:617-624 | a watcher tick closes every restart unless it is within its time or was never confirmed scheduled |
| `Reboots.WatcherLeavesNoneOverdue` | server/reboots.py:103-115 | a tick leaves no dated record past delay + 600 s or 1800 s |
| `Reboots.RestartTable.UpdateRestart` | server/store.py:435-446 | changes the named fields of one record, and nothing when there are none |
| `Reboots.RestartTable.OpenRestarts` | server/store.py:467-475 | exactly the open restarts selected, each once |
| `Reboots.RestartTable.AdvanceOnDisconnect` | server/main.py:587-589 | a disconnect at or after the request makes each of the device's awaited restarts offline at the time read for it; nothing else changes |
| `Reboots.RestartTable.AdvanceOnReturn` | server/main.py:592-597 | a return closes each of the device's offline restarts, dated: completed and confirmed if judged rebooted, not restarted if judged not, completed unconfirmed without a judgement; before it went offline only a confirmed boot closes one; the newly completed ones are checked again |
| `Reboots.RestartTable.Watch` | server/main.py:617-624 | a tick fails exactly the restarts past their time, ten minutes after the delay or half an hour after going offline, and changes no other |
| `RestartTruth.ConfirmedRestartBooted` | server/main.py:951-952 | within the tolerances a restart recorded with a confirmed boot really booted: the return that closed the record found it open and set when it came back, and the machine booted between the connection before that return and the return, and after it was last heard from when the restart was asked for, so later than 30 s before the request if it was reachable then |
| `RestartTruth.ConfirmingReturn` | server/reboots.py:84-100 | a confirmed record was open when one return judged a reboot reached it, and came back at that return's time |
| `RestartTruth.ContactOf` | server/main.py:951-952 | each return a record is told of is one connection of the device, judged against the connection just before it |
| `RestartTruth.Reconnect` | server/main.py:951-952 | a connection is judged, and every open restart of the device takes the return event with that judgement |
| `RestartTruth.BootMayPrecedeRequest` | server/registry.py:44-46 | the 30 s are needed: a machine down but not yet missed can confirm a boot that came before the request |
| `Uptime.DeviceRow.RecordConnection` | server/main.py:1092-1136 | a connection is judged against the last observation, which it replaces |
| `Uptime.DeviceRow.RecordAll` | server/main.py:1092-1136 | over any sequence of connections each judgement compares a connection with the one before |
| `Uptime.NoFalseAlarms` | server/main.py:1046-1075 | over any history within the tolerances, a reported reboot is a real one |
| `Uptime.SafeExactly` | server/main.py:998-1008 | no false alarm is possible if and only if twice the report error is at most 5 s and, with the wall clock's skew, at most 900 s |
| `Uptime.MissedOnlyWhenClose` | server/main.py:1046-1075 | a reboot is missed only when uptime fell by at most 5 s and the boots are within 120 s plus twice the error, or across processes 900 s plus twice the error and the skew |
| `Uptime.UnnoticedExactly` | server/main.py:1046-1090 | two readings pass for no reboot exactly when uptime fell by at most 5 s and fell short of the elapsed time by at most 120 s, or 900 s across processes |
| `Uptime.MissedWhenClose` | server/main.py:1046-1075 | and a reboot is missed whenever uptime fell by at most 5 s and the boots are closer than those bounds less the errors |
| `Uptime.JudgedExactly` | server/main.py:1064-1065 | there is a judgement exactly when both connections reported a plausible uptime |
| `Uptime.BelievedExactly` | server/main.py:1028-1032 | a report is believed exactly if it is a number from zero to twenty years |

## Left out

- HTTP, WebSocket, FastAPI, pydantic and asyncio: handlers are atomic steps between awaits, queues are sequences.
- SQLite: tables are maps with unique keys; a statement either commits or is refused.
- Cryptography: digests are parameters, and signature verification is the caller's verdict in `ControlPlane.ControlPlane.HandleResult`.
- The language model, its prompts and the parsing of its replies: a reply is arbitrary.
- PowerShell scripts, process start and kill, and what a repair does to Windows.
- Parsing of a result's fields: a parsed result is given, free of surrogates, as parsing leaves it.
- maxOutputBytes of a retry: it is not stored, so a reuse that differs only in it counts as the same request.
- The mode in which the AI driver is not deployed: an approval is then recorded and failed at once.
- ProtocolTheorems.AtMostOneRepair: speaks of dispatches, not of the reported outcome, because a resumed repair checks its precondition again and may end failed although it ran before the crash.
- ProtocolTheorems.EveryRepairWasApproved: bounds the time from decision to authorisation, not to dispatch, because the code reads the clock only when it authorises.
- Statuses after an unexpected exception: a failing worker may overwrite a later status, as in the code; decisions and dispatches are unaffected, final statuses are not claimed.
- Audit log, device events and investigation events: their text is not modelled.
- roundTripMs: memory and SQLite read the clock separately, so only its presence is preserved by eviction.
- ControlPlane.ControlPlane.Tick: the loop reads one wall clock, and a monotonic clock per job that the caller supplies.
- OutputCapture.ReadAsync: on cancellation the flag speaks of what was read until then; the limit must not exceed 2^31 - 5, far above the 4 MiB the server allows.
- Polling.Session.AwaitTerminal: a request's time is measured against the answer to the one before it, because the clock is read after that and before it is sent; assumes a monotonic clock and sleeps that do not end early; how long a request overruns its timeout is not bounded.
- Investigator.Investigate: termination of the source's loop rests on the wall clock; here a run is any finite sequence of turns.
- Reboots.WatchedRestartsClose: a restart left in scheduling by a crash has no overdue rule, so it is not claimed to close.
- RestartTruth.ConfirmedRestartBooted: the 30 s are for a restart whose device was reachable when it was asked for; of two concurrent requests under one key the second is answered as a duplicate of the first, without that check, and only the boot after the last contact is shown for it. The time a message spends on the way is not modelled.
- ControlPlane.ControlPlane.SendToDevice: an idempotency key that cannot be encoded raises in the lookup, before anything is created; keys here can be encoded.
- Uptime.NoFalseAlarms: real arithmetic; floating-point rounding of reported values is within the report error.
- Fencing.MarkersOfBlock: labels and tags without dashes, as all of the program's are; case folding and the space class are parameters with the properties Python gives them.
- Templates.FormatOfPs: attributes, indexes, conversions and format specifications of str.format never arise from a compiled script and are one error.
- The process-name and process-id validators of the repair catalogue, and the predicates of its checks: single comparisons.
- Inventory, event-log filters, enrolment tokens, job paging, redaction and the dashboard: presentation or single-branch checks.
