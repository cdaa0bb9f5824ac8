/** The approved-repair protocol as a state machine. One event is one committed
    Store call, one put on an outbound queue, or one in-memory move between
    them; handlers and worker threads interleave freely and a crash can fall
    between any two events. This allows at least every interleaving of the
    single-threaded event loop with its worker threads. */
module Protocol {
  import opened Wrappers
  import opened Tables
  import opened Approvals

  // ---------- in-memory parties ----------

  /** A `start` task: diagnosis and planning (server/investigations.py). */
  datatype StartTask =
    | Entered
    | Found                         // get_investigation returned the row
    | Diagnosing                    // it won claim_queued_investigation
    | Planned                       // status 'planning' is committed
    | Stored(decision: Decision)    // the proposal row is committed
    | Announced                     // the status a human sees is committed
    | StartFailing                  // an error is being recorded; 'failed' comes next

  /** An `apply` task: the approved repair (driver/remediation.py). */
  datatype ApplyTask =
    | Scheduled
    | Active(device: string)                                    // status was applying or verifying
    | Loaded(device: string, id: string, row: ProposalRow)      // an approved proposal row was read
    | Authorized(device: string, id: string, row: ProposalRow, script: Script, at: real)
    | Posted
    | Confirming                                                // the repair ran cleanly; its check comes next
    | Confirmed(verdict: Option<bool>)                          // what the verification found
    | ApplyFailing

  /** A decide_investigation call in progress. */
  datatype Decider =
    | Read(investigation: string, operator: string, request: DecisionRequest, device: string, status: Status)
    | Judged(investigation: string, operator: string, request: DecisionRequest, status: Status, checkedAt: real)
    | Won(investigation: string, decision: Outcome)             // recorded, or an earlier one to heal

  /** The worker's POST of a repair. `authorizedAt` is when authorize read the clock. */
  datatype Post = Post(investigation: string, proposal: string, device: string, script: Script,
                       timeout: int, authorizedAt: real)

  datatype SendRequest = SendRequest(device: string, script: Script, timeout: int, operator: string,
                                     key: Option<string>)

  /** A send_to_device call in progress. `origin` is the worker's post it serves, if any. */
  datatype Sender =
    | Checked(request: SendRequest, origin: Option<Post>)
    | Inserted(request: SendRequest, origin: Option<Post>, job: string)

  // ---------- history, kept for the theorems only ----------

  /** A job_dispatch put on a connection's outbound queue. */
  datatype Dispatch = Dispatch(job: string, request: SendRequest, origin: Option<Post>)

  /** An accepted send_to_device call and the job id it answered with. */
  datatype Answer = Answer(request: SendRequest, job: string)

  /** A decision request that is to be answered as accepted. */
  datatype Acceptance = Acceptance(investigation: string, request: DecisionRequest)

  datatype DecisionRecord = DecisionRecord(request: DecisionRequest, statusRead: Status, checkedAt: real,
                                           statusAtCommit: Status, verdict: Verdict)

  datatype Phase = Down | Orphaned | Up

  datatype State = State(
    db: Db,
    jobs: JobRows,
    phase: Phase,
    starts: map<string, StartTask>,
    applies: map<string, ApplyTask>,
    deciders: map<nat, Decider>,
    senders: map<nat, Sender>,
    posts: set<Post>,               // sent by workers; each may be delivered at any time, any number of times
    queued: seq<Dispatch>,
    answers: seq<Answer>,
    accepted: seq<Acceptance>,
    decisions: map<string, DecisionRecord>)

  const INITIAL := State(Db(map[], map[]), map[], Down, map[], map[], map[], map[], {}, [], [], [], map[])

  function RepairKey(proposal: string): string {
    "repair-" + proposal
  }

  function RequestFor(w: World, post: Post): SendRequest {
    SendRequest(post.device, post.script, post.timeout, w.driver, Some(RepairKey(post.proposal)))
  }

  function SpecFor(request: SendRequest, now: real): JobSpec {
    JobSpec(request.device, request.script, request.timeout, request.operator, request.key, now)
  }

  /** The earlier request under this key is the same one. maxOutputBytes is not
      stored, so it is not compared. */
  predicate SameRequest(spec: JobSpec, request: SendRequest) {
    && spec.device == request.device && spec.script == request.script
    && spec.timeout == request.timeout && spec.createdBy == request.operator
  }

  /** _schedule: one task per kind and investigation, unless one is still running. */
  function Schedule<T>(tasks: map<string, T>, i: string, task: T): map<string, T> {
    if i in tasks then tasks else tasks[i := task]
  }

  datatype DecideEvent =
    | BeginDecision(i: string, operator: string, request: DecisionRequest)
    | Check(current: Option<string>, now: real)
    | Commit(now: real)
    | Conclude
    | Abandon

  datatype StartEvent =
    | Find
    | Claim
    | WriteNotes(notes: Notes)
    | Plan
    | StoreProposal(p: string, choice: Choice, now: real, createdAt: real)
    | Announce
    | Return
    | Raise
    | MarkFailed

  datatype ApplyEvent =
    | ReadStatus
    | Load(current: Option<string>)
    | AuthorizeRepair(now: real)
    | PostRepair
    | Describe(notes: Notes)
    | MarkVerifying(stored: bool)
    | Confirm(verdict: Option<bool>)
    | Finish
    | Leave
    | RaiseError
    | MarkApplyFailed

  datatype SendEvent =
    | Lookup(request: SendRequest, origin: Option<Post>)
    | Insert(job: string, now: real)
    | Put
    | Drop

  datatype Event =
    | Create(i: string, device: string, problem: string, operator: string, requestId: string)
    | DecideEvent(d: nat, decide: DecideEvent)
    | StartEvent(i: string, start: StartEvent)
    | ApplyEvent(i: string, apply: ApplyEvent)
    | SendEvent(n: nat, send: SendEvent)
    | JobProgress(job: string, row: JobRow)
    | Crash
    | OrphanJobs(now: real)
    | Recover(work: set<(string, Kind)>)

  // ---------- the steps of each party ----------

  /** What becomes of a decider whose request is so judged. */
  function Judging(deciders: map<nat, Decider>, d: nat, judgement: Judgement, checkedAt: real): map<nat, Decider>
    requires d in deciders && deciders[d].Read?
  {
    var h := deciders[d];
    match judgement
    case Record => deciders[d := Judged(h.investigation, h.operator, h.request, h.status, checkedAt)]
    case Repeat(heal) => if heal then deciders[d := Won(h.investigation, h.request.decision)] else deciders - {d}
    case _ => deciders - {d}
  }

  /** Everything decide_investigation checks before it records. */
  ghost predicate CheckStep(w: World, s: State, d: nat, current: Option<string>, now: real, s': State) {
    d in s.deciders && s.deciders[d].Read? &&
    var h := s.deciders[d];
    && CurrentIs(s.db, h.investigation, current)
    && var proposal := if current.None? then None else Some((current.value, s.db.proposals[current.value]));
       var judgement := Judge(w, h.investigation, h.device, h.status, proposal, h.request, now);
       s' == s.(deciders := Judging(s.deciders, d, judgement, now),
                accepted := if judgement.Repeat? then s.accepted + [Acceptance(h.investigation, h.request)]
                            else s.accepted)
  }

  /** record_proposal_decision: the first decision wins; a request that lost to an
      identical one is accepted all the same. */
  ghost predicate CommitStep(s: State, d: nat, now: real, s': State) {
    d in s.deciders && s.deciders[d].Judged? &&
    var h := s.deciders[d];
    var p := h.request.proposal;
    var verdict := Verdict(now, h.operator, h.request.decision);
    h.investigation in s.db.investigations &&
    if Undecided(s.db, p) then
      s' == s.(db := RecordDecision(s.db, p, verdict),
               deciders := s.deciders[d := Won(h.investigation, h.request.decision)],
               accepted := s.accepted + [Acceptance(h.investigation, h.request)],
               decisions := s.decisions[p := DecisionRecord(h.request, h.status, h.checkedAt,
                                             s.db.investigations[h.investigation].status, verdict)])
    else s' == s.(deciders := s.deciders - {d},
                  accepted := if p in s.db.proposals && s.db.proposals[p].verdict.value.outcome == h.request.decision
                              then s.accepted + [Acceptance(h.investigation, h.request)] else s.accepted)
  }

  /** The status follows the decision, and an approval schedules the repair. */
  ghost predicate ConcludeStep(s: State, d: nat, s': State) {
    d in s.deciders && s.deciders[d].Won? &&
    var h := s.deciders[d];
    if h.decision == Approve then
      s' == s.(db := SetStatus(s.db, h.investigation, Applying), deciders := s.deciders - {d},
               applies := Schedule(s.applies, h.investigation, Scheduled))
    else
      s' == s.(db := SetStatus(s.db, h.investigation, Rejected), deciders := s.deciders - {d})
  }

  ghost predicate DecideStep(w: World, s: State, d: nat, e: DecideEvent, s': State) {
    match e
    case BeginDecision(i, operator, request) =>
      && d !in s.deciders && i in s.db.investigations
      && s' == s.(deciders := s.deciders[d := Read(i, operator, request, s.db.investigations[i].device,
                                                  s.db.investigations[i].status)])
    case Check(current, now) => CheckStep(w, s, d, current, now, s')
    case Commit(now) => CommitStep(s, d, now, s')
    case Conclude => ConcludeStep(s, d, s')
    case Abandon => s' == s.(deciders := s.deciders - {d})
  }

  /** _store_proposal: what the planner chose becomes the row a human reviews. */
  ghost predicate StoreStep(w: World, s: State, i: string, p: string, choice: Choice, now: real, createdAt: real,
                            s': State) {
    i in s.starts &&
    var task := s.starts[i];
    task.Planned? && i in s.db.investigations &&
    var content := Propose(w, choice);
    var row := StoredRow(w, i, s.db.investigations[i].device, p, content, now, createdAt);
    if p in s.db.proposals then s' == s.(starts := s.starts[i := StartFailing])
    else s' == s.(db := CreateProposal(s.db, p, row), starts := s.starts[i := Stored(content.decision)])
  }

  ghost predicate StartStep(w: World, s: State, i: string, e: StartEvent, s': State) {
    i in s.starts &&
    var task := s.starts[i];
    match e
    case Find =>
      task.Entered? && s' == s.(starts := if i in s.db.investigations then s.starts[i := Found] else s.starts - {i})
    case Claim =>
      task.Found? && s' == s.(db := ClaimQueued(s.db, i),
                              starts := if Claimable(s.db, i) then s.starts[i := Diagnosing] else s.starts - {i})
    case WriteNotes(notes) =>      // a failing task only records its error
      && i in s.db.investigations
      && (task.Diagnosing? || (task.StartFailing? &&
            notes == s.db.investigations[i].notes.(error := notes.error)))
      && s' == s.(db := SetNotes(s.db, i, notes))
    case Plan =>
      task.Diagnosing? && s' == s.(db := SetStatus(s.db, i, Planning), starts := s.starts[i := Planned])
    case StoreProposal(p, choice, now, createdAt) => StoreStep(w, s, i, p, choice, now, createdAt, s')
    case Announce =>
      task.Stored? &&
      s' == s.(db := SetStatus(s.db, i, if task.decision == Proposed then AwaitingApproval else Completed),
               starts := s.starts[i := Announced])
    case Return => task.Announced? && s' == s.(starts := s.starts - {i})
    case Raise => s' == s.(starts := s.starts[i := StartFailing])
    case MarkFailed =>
      task.StartFailing? && s' == s.(db := SetStatus(s.db, i, Failed), starts := s.starts - {i})
  }

  ghost predicate ApplyStep(w: World, s: State, i: string, e: ApplyEvent, s': State) {
    i in s.applies &&
    var task := s.applies[i];
    match e
    case ReadStatus =>
      task.Scheduled? &&
      s' == s.(applies := if i in s.db.investigations && s.db.investigations[i].status in {Applying, Verifying}
                          then s.applies[i := Active(s.db.investigations[i].device)] else s.applies - {i})
    case Load(current) =>
      task.Active? && CurrentIs(s.db, i, current) &&
      s' == s.(applies := s.applies[i :=
        if current.Some? && LatestOutcome(s.db, current) == Some(Approve)
        then Loaded(task.device, current.value, s.db.proposals[current.value]) else ApplyFailing])
    case AuthorizeRepair(now) =>
      task.Loaded? && task.row.verdict.Some? &&
      var proposal := ProposalFromRow(task.device, task.id, task.row);
      s' == s.(applies := s.applies[i :=
        match Authorize(w, proposal, Some(ApprovalFromRow(task.device, task.id, task.row)), now)
        case Success(script) => Authorized(task.device, task.id, task.row, script, now)
        case Failure(_) => ApplyFailing])
    case PostRepair =>       // the precondition held; otherwise it refuses: RaiseError
      task.Authorized? && task.row.content.repair.Some? &&
      s' == s.(applies := s.applies[i := Posted],
               posts := s.posts + {Post(i, task.id, task.device, task.script,
                                        w.timeout(task.row.content.repair.value), task.at)})
    case Describe(notes) => !task.Scheduled? && s' == s.(db := SetNotes(s.db, i, notes))
    case MarkVerifying(stored) =>      // an exception from writing the status is swallowed
      task.Posted? && s' == s.(db := if stored then SetStatus(s.db, i, Verifying) else s.db,
                               applies := s.applies[i := Confirming])
    case Confirm(verdict) => task.Confirming? && s' == s.(applies := s.applies[i := Confirmed(verdict)])
    case Finish =>                     // without a verification, or with one that did not succeed, unresolved
      (task.Posted? || task.Confirmed?) &&
      s' == s.(db := SetStatus(s.db, i, if task == Confirmed(Some(true)) then Resolved else Unresolved),
               applies := s.applies - {i})
    case Leave => s' == s.(applies := s.applies - {i})
    case RaiseError => s' == s.(applies := s.applies[i := ApplyFailing])
    case MarkApplyFailed =>
      task.ApplyFailing? && s' == s.(db := SetStatus(s.db, i, Failed), applies := s.applies - {i})
  }

  ghost predicate SendStep(w: World, s: State, n: nat, e: SendEvent, s': State) {
    match e
    case Lookup(request, origin) =>
      && n !in s.senders
      && (origin.Some? ==> origin.value in s.posts && request == RequestFor(w, origin.value))
      && (if request.key.Some? && request.key.value != "" && KeyTaken(s.jobs, request.key.value) then
            exists j :: j in s.jobs && s.jobs[j].spec.key == request.key
              && s' == (if SameRequest(s.jobs[j].spec, request)
                        then s.(answers := s.answers + [Answer(request, j)]) else s)
          else s' == s.(senders := s.senders[n := Checked(request, origin)]))
    case Insert(job, now) =>
      n in s.senders && s.senders[n].Checked? &&
      var h := s.senders[n];
      var spec := SpecFor(h.request, now);
      if InsertAccepted(s.jobs, job, spec) then
        s' == s.(jobs := InsertJob(s.jobs, job, spec),
                 senders := s.senders[n := Inserted(h.request, h.origin, job)])
      else s' == s.(senders := s.senders - {n})
    case Put =>
      n in s.senders && s.senders[n].Inserted? &&
      var h := s.senders[n];
      s' == s.(queued := s.queued + [Dispatch(h.job, h.request, h.origin)],
               answers := s.answers + [Answer(h.request, h.job)],
               senders := s.senders - {n})
    case Drop => s' == s.(senders := s.senders - {n})
  }

  ghost predicate Step(w: World, s: State, e: Event, s': State) {
    match e
    case Create(i, device, problem, operator, requestId) =>
      && s.phase == Up
      && s' == s.(db := CreateInvestigation(s.db, i, device, problem, operator, requestId),
                  starts := if CreateInvestigation(s.db, i, device, problem, operator, requestId) == s.db
                            then s.starts else Schedule(s.starts, i, Entered))
    case Crash =>
      s' == s.(phase := Down, starts := map[], applies := map[], deciders := map[], senders := map[])
    case OrphanJobs(now) => s.phase == Down && s' == s.(phase := Orphaned, jobs := OrphanActiveJobs(s.jobs, now))
    case Recover(work) =>
      && s.phase == Orphaned
      && Recovered(s.db, s'.db, work)
      && s' == s.(phase := Up, db := s'.db, starts := s'.starts, applies := s'.applies)
      && (forall i :: i in s'.starts <==> (i, Start) in work) && (forall i | i in s'.starts :: s'.starts[i] == Entered)
      && (forall i :: i in s'.applies <==> (i, Apply) in work)
      && (forall i | i in s'.applies :: s'.applies[i] == Scheduled)
    case DecideEvent(d, decide) => s.phase == Up && DecideStep(w, s, d, decide, s')
    case StartEvent(i, start) => s.phase == Up && StartStep(w, s, i, start, s')
    case ApplyEvent(i, apply) => s.phase == Up && ApplyStep(w, s, i, apply, s')
    case SendEvent(n, send) => s.phase == Up && SendStep(w, s, n, send, s')
    case JobProgress(job, row) =>
      && s.phase == Up && job in s.jobs && row.spec == s.jobs[job].spec
      && s' == s.(jobs := s.jobs[job := row])
  }

  /** A run: every state follows from the one before by an event. */
  ghost predicate Run(w: World, states: seq<State>, events: seq<Event>) {
    && |states| == |events| + 1
    && states[0] == INITIAL
    && forall k | 0 <= k < |events| :: Step(w, states[k], events[k], states[k + 1])
  }
}
