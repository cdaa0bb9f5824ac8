/** The durable tables (server/store.py) as values: one map per table, keyed by
    its primary key, and one function per committed write. `Store` performs
    these writes in place; the protocol's steps use the same functions. */
module Tables {
  import opened Wrappers

  /** A Python string: a sequence of code points, surrogates included. */
  type Text = seq<int>

  type Script = Text

  function Ascii(s: string): Text {
    seq(|s|, i requires 0 <= i < |s| => s[i] as int)
  }

  /** SQLite stores text as UTF-8, which an unpaired surrogate does not have. */
  predicate Encodable(s: Text) {
    forall i | 0 <= i < |s| :: !(0xD800 <= s[i] <= 0xDFFF)
  }

  // ---------- investigations ----------

  datatype Status =
    | Queued | Investigating | Planning | AwaitingApproval | Applying | Verifying
    | Completed | Resolved | Unresolved | Failed | Rejected

  /** Past diagnosis and planning: nothing but a human decision, the approved
      repair, or a failure can happen to it. */
  predicate Settled(s: Status) {
    s !in {Queued, Investigating, Planning}
  }

  predicate Unfinished(s: Status) {
    s in {Queued, Investigating, Planning, AwaitingApproval, Applying, Verifying}
  }

  /** What diagnosis and repair wrote down. Evidence rows are kept with the
      investigation they belong to. */
  datatype Notes = Notes(finding: Option<string>, confidence: Option<string>,
                         error: Option<string>, outcome: Option<string>,
                         evidence: seq<string>)

  const CLEAN := Notes(None, None, None, None, [])

  datatype InvestigationRow = InvestigationRow(
    device: string, problem: string, createdBy: string, requestId: string,
    status: Status, notes: Notes)

  // ---------- proposals ----------

  type Arguments = map<string, string>

  datatype Decision = Proposed | NoAction | Refused

  datatype Outcome = Approve | Reject

  /** The fields of a proposal a human reviews. */
  datatype Content = Content(
    decision: Decision, repair: Option<string>, arguments: Arguments,
    script: Option<Script>, scriptSha256: Option<string>, reasoning: string,
    expectedEffect: string, risk: string, verifiedBy: string, refusalReason: string)

  /** decided_at, decided_by and decision_outcome are only ever written together. */
  datatype Verdict = Verdict(decidedAt: real, decidedBy: string, outcome: Outcome)

  datatype ProposalRow = ProposalRow(
    investigation: string, content: Content, hash: string, createdAt: real,
    expiresAt: Option<real>, verdict: Option<Verdict>)

  // ---------- jobs ----------

  datatype JobState =
    | JobQueued | Dispatched | Running | JobCompleted | TimedOut | Unreachable | JobFailed

  predicate IsTerminal(s: JobState) {
    s in {JobCompleted, TimedOut, Unreachable, JobFailed}
  }

  /** What a finished job carries; a job that never reported has only an error. */
  datatype JobResult = JobResult(
    exitCode: Option<int>, stdout: Text, stderr: Text, durationMs: Option<int>,
    stdoutTruncated: bool, stderrTruncated: bool, error: Option<Text>)

  const NO_RESULT := JobResult(None, [], [], None, false, false, None)

  function FailedResult(error: Text): JobResult {
    NO_RESULT.(error := Some(error))
  }

  predicate Storable(result: JobResult) {
    Encodable(result.stdout) && Encodable(result.stderr) && (result.error.Some? ==> Encodable(result.error.value))
  }

  /** The columns a job is created with. They never change. */
  datatype JobSpec = JobSpec(device: string, script: Script, timeout: int, createdBy: string,
                             key: Option<string>, createdAt: real)

  datatype JobRow = JobRow(spec: JobSpec, state: JobState, dispatchedAt: Option<real>,
                           completedAt: Option<real>, result: JobResult)

  type JobRows = map<string, JobRow>

  predicate KeyTaken(rows: JobRows, key: string) {
    exists j :: j in rows && rows[j].spec.key == Some(key)
  }

  /** INSERT INTO jobs: the primary key and the unique index on
      idempotency_key must be free, and the text must be storable. */
  predicate InsertAccepted(rows: JobRows, job: string, spec: JobSpec) {
    && job !in rows
    && Encodable(spec.script)
    && (spec.key.Some? ==> !KeyTaken(rows, spec.key.value))
  }

  function InsertJob(rows: JobRows, job: string, spec: JobSpec): JobRows
    requires InsertAccepted(rows, job, spec)
  {
    rows[job := JobRow(spec, JobQueued, None, None, NO_RESULT)]
  }

  function MarkDispatched(rows: JobRows, job: string, at: real): JobRows {
    if job in rows then rows[job := rows[job].(state := Dispatched, dispatchedAt := Some(at))]
    else rows
  }

  function UpdateJobState(rows: JobRows, job: string, state: JobState): JobRows {
    if job in rows then rows[job := rows[job].(state := state)] else rows
  }

  function CompleteJob(rows: JobRows, job: string, state: JobState, result: JobResult, now: real): JobRows {
    if job in rows then
      rows[job := rows[job].(state := state, result := result, completedAt := Some(now))]
    else rows
  }

  const ORPHANED := Ascii("Control plane restarted while job was in flight.")

  function OrphanRow(row: JobRow, now: real): JobRow {
    if IsTerminal(row.state) then row
    else row.(state := JobFailed, completedAt := Some(now),
              result := row.result.(error := Some(ORPHANED)))
  }

  function OrphanActiveJobs(rows: JobRows, now: real): JobRows {
    map j | j in rows :: OrphanRow(rows[j], now)
  }

  /** The unique index: a key names at most one job. */
  ghost predicate KeysUnique(rows: JobRows) {
    forall j, k | j in rows && k in rows && rows[j].spec.key == rows[k].spec.key && rows[j].spec.key.Some? :: j == k
  }

  // ---------- what one write does to the rows ----------

  /** One new row, still to be sent, and no other touched. */
  ghost predicate RowAdded(before: JobRows, after: JobRows, job: string, spec: JobSpec) {
    && job !in before && after.Keys == before.Keys + {job}
    && after[job].spec == spec && after[job].state == JobQueued && after[job].result == NO_RESULT
    && after[job].dispatchedAt.None? && after[job].completedAt.None?
    && forall j | j in before :: after[j] == before[j]
  }

  /** The job, if there is one, has this end; what it was created with, when it was
      sent and every other job are as before. */
  ghost predicate RowFinished(before: JobRows, after: JobRows, job: string, state: JobState, result: JobResult,
                              now: real) {
    && after.Keys == before.Keys
    && (job in after ==> after[job].state == state && after[job].result == result && after[job].completedAt == Some(now)
                         && after[job].spec == before[job].spec && after[job].dispatchedAt == before[job].dispatchedAt)
    && forall j | j in after && j != job :: after[j] == before[j]
  }

  /** No row is in flight: what was finished is as before, and the rest failed now,
      keeping what they had and saying why. */
  ghost predicate NoneInFlight(before: JobRows, after: JobRows, now: real) {
    && after.Keys == before.Keys
    && forall j | j in after ::
         && IsTerminal(after[j].state) && after[j].spec == before[j].spec
         && after[j].dispatchedAt == before[j].dispatchedAt
         && (if IsTerminal(before[j].state) then after[j] == before[j]
             else && after[j].state == JobFailed && after[j].completedAt == Some(now)
                  && after[j].result == before[j].result.(error := Some(ORPHANED)))
  }

  /** These describe the rows completely. */
  lemma AddedExactly(before: JobRows, after: JobRows, job: string, spec: JobSpec)
    requires InsertAccepted(before, job, spec)
    ensures RowAdded(before, after, job, spec) <==> after == InsertJob(before, job, spec)
  {
  }

  lemma FinishedExactly(before: JobRows, after: JobRows, job: string, state: JobState, result: JobResult, now: real)
    ensures RowFinished(before, after, job, state, result, now)
            <==> after == CompleteJob(before, job, state, result, now)
  {
  }

  lemma OrphanedExactly(before: JobRows, after: JobRows, now: real)
    ensures NoneInFlight(before, after, now) <==> after == OrphanActiveJobs(before, now)
  {
  }

  /** A key leads to the one job inserted under it. */
  lemma InsertedIsFound(before: JobRows, after: JobRows, job: string, spec: JobSpec)
    requires KeysUnique(before) && InsertAccepted(before, job, spec) && RowAdded(before, after, job, spec)
    ensures KeysUnique(after)
    ensures spec.key.Some? ==> forall j :: j in after && after[j].spec.key == spec.key <==> j == job
  {
  }

  /** Orphaning a second time, as a crash during startup makes happen, changes nothing. */
  lemma OrphaningAgain(rows: JobRows, once: JobRows, twice: JobRows, now: real, later: real)
    requires NoneInFlight(rows, once, now) && NoneInFlight(once, twice, later)
    ensures twice == once
  {
  }

  // ---------- the investigation tables together ----------

  datatype Db = Db(investigations: map<string, InvestigationRow>, proposals: map<string, ProposalRow>)

  predicate RequestTaken(db: Db, createdBy: string, requestId: string) {
    exists i :: i in db.investigations
      && db.investigations[i].createdBy == createdBy && db.investigations[i].requestId == requestId
  }

  /** Both unique constraints of the table; the insert is refused if either is hit. */
  function CreateInvestigation(db: Db, i: string, device: string, problem: string,
                               createdBy: string, requestId: string): Db {
    if i in db.investigations || RequestTaken(db, createdBy, requestId) then db
    else db.(investigations := db.investigations[i :=
      InvestigationRow(device, problem, createdBy, requestId, Queued, CLEAN)])
  }

  function SetStatus(db: Db, i: string, status: Status): Db {
    if i in db.investigations then
      db.(investigations := db.investigations[i := db.investigations[i].(status := status)])
    else db
  }

  function SetNotes(db: Db, i: string, notes: Notes): Db {
    if i in db.investigations then
      db.(investigations := db.investigations[i := db.investigations[i].(notes := notes)])
    else db
  }

  predicate Claimable(db: Db, i: string) {
    i in db.investigations && db.investigations[i].status == Queued
  }

  function ClaimQueued(db: Db, i: string): Db {
    if Claimable(db, i) then SetStatus(db, i, Investigating) else db
  }

  function CreateProposal(db: Db, p: string, row: ProposalRow): Db
    requires p !in db.proposals
  {
    db.(proposals := db.proposals[p := row])
  }

  predicate Undecided(db: Db, p: string) {
    p in db.proposals && db.proposals[p].verdict.None?
  }

  /** Compare-and-set on decided_at IS NULL. */
  function RecordDecision(db: Db, p: string, verdict: Verdict): Db {
    if Undecided(db, p) then
      db.(proposals := db.proposals[p := db.proposals[p].(verdict := Some(verdict))])
    else db
  }

  /** ORDER BY created_at DESC LIMIT 1: the row `p` may be the one returned. */
  predicate IsCurrent(db: Db, i: string, p: string) {
    && p in db.proposals && db.proposals[p].investigation == i
    && forall q | q in db.proposals && db.proposals[q].investigation == i ::
         db.proposals[q].createdAt <= db.proposals[p].createdAt
  }

  ghost predicate HasProposal(db: Db, i: string) {
    exists p :: p in db.proposals && db.proposals[p].investigation == i
  }

  /** What get_current_proposal may return. */
  ghost predicate CurrentIs(db: Db, i: string, p: Option<string>) {
    match p
    case Some(q) => IsCurrent(db, i, q)
    case None => !HasProposal(db, i)
  }

  // ---------- recovery after a restart ----------

  datatype Kind = Start | Apply

  function LatestOutcome(db: Db, p: Option<string>): Option<Outcome>
    requires p.Some? ==> p.value in db.proposals
  {
    if p.None? || db.proposals[p.value].verdict.None? then None
    else Some(db.proposals[p.value].verdict.value.outcome)
  }

  /** One iteration of recover_investigations: the row it leaves. */
  function RecoverRow(row: InvestigationRow, decision: Option<Outcome>): InvestigationRow {
    if row.status == Queued then row
    else if row.status in {Investigating, Planning} then row.(status := Queued, notes := CLEAN)
    else if row.status in {AwaitingApproval, Applying, Verifying} then
      if decision == Some(Approve) then row.(status := Applying)
      else if decision == Some(Reject) then row.(status := Rejected)
      else if row.status in {Applying, Verifying} then
        row.(status := Failed, notes := row.notes.(error :=
          Some("Repair state could not be recovered because its approval is missing.")))
      else row
    else row
  }

  /** ... and the work it adds to the list. */
  function RecoverKind(row: InvestigationRow, decision: Option<Outcome>): Option<Kind> {
    if row.status in {Queued, Investigating, Planning} then Some(Start)
    else if row.status in {AwaitingApproval, Applying, Verifying} && decision == Some(Approve) then Some(Apply)
    else None
  }

  /** An undecided proposal of an interrupted diagnosis is deleted. */
  predicate Discarded(db: Db, p: string)
    requires p in db.proposals
  {
    && db.proposals[p].verdict.None?
    && db.proposals[p].investigation in db.investigations
    && db.investigations[db.proposals[p].investigation].status in {Investigating, Planning}
  }

  function KeptProposals(db: Db): map<string, ProposalRow> {
    map p | p in db.proposals && !Discarded(db, p) :: db.proposals[p]
  }

  ghost predicate RowRecovered(db: Db, rows: map<string, InvestigationRow>, work: set<(string, Kind)>, i: string)
    requires i in db.investigations && i in rows
  {
    exists p: Option<string> ::
      && CurrentIs(db, i, p)
      && rows[i] == RecoverRow(db.investigations[i], LatestOutcome(db, p))
      && forall k :: (i, k) in work <==> RecoverKind(db.investigations[i], LatestOutcome(db, p)) == Some(k)
  }

  /** The effect of recover_investigations on the tables, with its work list as a set. */
  ghost predicate Recovered(before: Db, after: Db, work: set<(string, Kind)>) {
    && after.investigations.Keys == before.investigations.Keys
    && (forall i | i in before.investigations :: RowRecovered(before, after.investigations, work, i))
    && (forall w | w in work :: w.0 in before.investigations)
    && after.proposals == KeptProposals(before)
  }
}
