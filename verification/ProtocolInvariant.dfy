/** The invariant of the repair protocol, and its preservation by every event. */
module ProtocolInvariant {
  import opened Wrappers
  import opened Tables
  import opened Approvals
  import opened Protocol

  // ---------- durable tables ----------

  ghost predicate OneProposal(db: Db) {
    forall p, q | p in db.proposals && q in db.proposals
                  && db.proposals[p].investigation == db.proposals[q].investigation :: p == q
  }

  /** A proposed row carries the catalogue's own script and its hash, and an
      expiry exactly when it can be approved. */
  ghost predicate ContentOk(w: World, row: ProposalRow) {
    var c := row.content;
    && (row.expiresAt.Some? <==> Actionable(c))
    && (c.decision == Proposed ==>
          && c.repair.Some? && c.script.Some?
          && w.build(c.repair.value, c.arguments) == c.script
          && c.scriptSha256 == Some(w.sha(c.script.value)))
  }

  /** A proposal row against the investigation it belongs to. */
  ghost predicate RowFits(w: World, p: string, row: ProposalRow, inv: InvestigationRow) {
    && HashMatches(w, row.investigation, inv.device, p, row)
    && ContentOk(w, row)
    && (row.verdict.None? ==>
          && inv.status in {Planning, AwaitingApproval, Completed, Failed}
          && (inv.status == AwaitingApproval ==> row.content.decision == Proposed)
          && (inv.status == Completed ==> row.content.decision != Proposed))
    && (row.verdict.Some? ==> Settled(inv.status))
  }

  ghost predicate ProposalOk(w: World, db: Db, p: string)
    requires p in db.proposals
  {
    var row := db.proposals[p];
    row.investigation in db.investigations && RowFits(w, p, row, db.investigations[row.investigation])
  }

  ghost predicate DecidedAs(db: Db, i: string, p: string, outcome: Outcome) {
    && p in db.proposals && db.proposals[p].investigation == i
    && db.proposals[p].verdict.Some? && db.proposals[p].verdict.value.outcome == outcome
  }

  ghost predicate Decided(db: Db, i: string, outcome: Outcome) {
    exists p :: DecidedAs(db, i, p, outcome)
  }

  /** Nothing an interrupted diagnosis collected. */
  predicate Fresh(notes: Notes) {
    notes == CLEAN.(error := notes.error)
  }

  ghost predicate InvestigationOk(db: Db, i: string)
    requires i in db.investigations
  {
    && (db.investigations[i].status == AwaitingApproval ==> HasProposal(db, i))
    && (db.investigations[i].status in {Applying, Verifying} ==> Decided(db, i, Approve))
    && (db.investigations[i].status == Queued ==> Fresh(db.investigations[i].notes))
  }

  ghost predicate RowsOk(w: World, db: Db) {
    && OneProposal(db)
    && (forall p | p in db.proposals :: ProposalOk(w, db, p))
    && (forall i | i in db.investigations :: InvestigationOk(db, i))
  }

  // ---------- parties ----------

  ghost predicate IsSettled(db: Db, i: string) {
    i in db.investigations && Settled(db.investigations[i].status)
  }

  ghost predicate HasStatus(db: Db, i: string, status: Status) {
    i in db.investigations && db.investigations[i].status == status
  }

  ghost predicate StartOk(db: Db, i: string, task: StartTask) {
    match task
    case Diagnosing => HasStatus(db, i, Investigating)
    case Planned => HasStatus(db, i, Planning) && !HasProposal(db, i)
    case Stored(d) =>
      && HasStatus(db, i, Planning)
      && exists p :: p in db.proposals && db.proposals[p].investigation == i && db.proposals[p].content.decision == d
    case Announced => IsSettled(db, i)
    case _ => true
  }

  ghost predicate ApprovedRow(db: Db, i: string, device: string, p: string, row: ProposalRow) {
    && DecidedAs(db, i, p, Approve) && db.proposals[p] == row
    && i in db.investigations && db.investigations[i].device == device
  }

  ghost predicate AuthorizedScript(w: World, row: ProposalRow, script: Script, at: real) {
    && row.verdict.Some? && row.content.repair.Some?
    && w.build(row.content.repair.value, row.content.arguments) == Some(script)
    && row.content.script == Some(script)
    && at - row.verdict.value.decidedAt <= APPROVAL_TTL
  }

  ghost predicate ApplyOk(w: World, db: Db, i: string, task: ApplyTask) {
    && IsSettled(db, i) && Decided(db, i, Approve)
    && match task
       case Active(device) => db.investigations[i].device == device
       case Loaded(device, p, row) => ApprovedRow(db, i, device, p, row)
       case Authorized(device, p, row, script, at) =>
         ApprovedRow(db, i, device, p, row) && AuthorizedScript(w, row, script, at)
       case _ => true
  }

  /** The request names this row as it stands, and it may still be approved. */
  ghost predicate Reviewed(db: Db, i: string, p: string, request: DecisionRequest, checkedAt: real) {
    && p in db.proposals && i in db.investigations
    && db.proposals[p].investigation == i && db.proposals[p].content.decision == Proposed
    && request.proposal == p && request.hash == db.proposals[p].hash
    && request.device == db.investigations[i].device
    && (request.decision == Approve ==>
          db.proposals[p].expiresAt.Some? && checkedAt < db.proposals[p].expiresAt.value)
  }

  ghost predicate DeciderOk(db: Db, h: Decider) {
    match h
    case Read(i, _, _, device, status) =>
      && i in db.investigations && db.investigations[i].device == device
      && (status == AwaitingApproval ==> IsSettled(db, i))
    case Judged(i, _, request, status, checkedAt) =>
      IsSettled(db, i) && status == AwaitingApproval && Reviewed(db, i, request.proposal, request, checkedAt)
    case Won(i, decision) => IsSettled(db, i) && Decided(db, i, decision)
  }

  ghost predicate PostOk(w: World, db: Db, post: Post) {
    && post.proposal in db.proposals
    && ApprovedRow(db, post.investigation, post.device, post.proposal, db.proposals[post.proposal])
    && AuthorizedScript(w, db.proposals[post.proposal], post.script, post.authorizedAt)
  }

  ghost predicate RecordOk(db: Db, p: string, record: DecisionRecord)
    requires p in db.proposals
  {
    && db.proposals[p].verdict == Some(record.verdict)
    && record.verdict.outcome == record.request.decision
    && record.statusRead == AwaitingApproval
    && record.statusAtCommit in {AwaitingApproval, Failed}
    && Reviewed(db, db.proposals[p].investigation, p, record.request, record.checkedAt)
  }

  ghost predicate DecisionsOk(db: Db, decisions: map<string, DecisionRecord>) {
    forall p | p in db.proposals && db.proposals[p].verdict.Some? :: p in decisions && RecordOk(db, p, decisions[p])
  }

  // ---------- dispatch ----------

  ghost predicate Serves(jobs: JobRows, job: string, request: SendRequest) {
    job in jobs && jobs[job].spec.key == request.key && SameRequest(jobs[job].spec, request)
  }

  ghost predicate OriginOk(w: World, posts: set<Post>, request: SendRequest, origin: Option<Post>) {
    origin.Some? ==> origin.value in posts && request == RequestFor(w, origin.value)
  }

  ghost predicate SenderOk(w: World, jobs: JobRows, posts: set<Post>, h: Sender) {
    && OriginOk(w, posts, h.request, h.origin)
    && (h.Inserted? ==> Serves(jobs, h.job, h.request))
  }

  ghost predicate NotQueued(queued: seq<Dispatch>, job: string) {
    forall k | 0 <= k < |queued| :: queued[k].job != job
  }

  ghost predicate SendersOk(w: World, jobs: JobRows, posts: set<Post>, senders: map<nat, Sender>) {
    forall n | n in senders :: SenderOk(w, jobs, posts, senders[n])
  }

  /** An inserted job has one sender, and is not queued yet. */
  ghost predicate SendersFresh(senders: map<nat, Sender>, queued: seq<Dispatch>) {
    && (forall n | n in senders && senders[n].Inserted? :: NotQueued(queued, senders[n].job))
    && (forall m, n | m in senders && n in senders && senders[m].Inserted? && senders[n].Inserted?
                      && senders[m].job == senders[n].job :: m == n)
  }

  ghost predicate DispatchOk(w: World, jobs: JobRows, posts: set<Post>, entry: Dispatch) {
    Serves(jobs, entry.job, entry.request) && OriginOk(w, posts, entry.request, entry.origin)
  }

  ghost predicate QueuedOk(w: World, jobs: JobRows, posts: set<Post>, queued: seq<Dispatch>) {
    forall k | 0 <= k < |queued| :: DispatchOk(w, jobs, posts, queued[k])
  }

  ghost predicate QueuedOnce(queued: seq<Dispatch>) {
    forall k, l | 0 <= k < l < |queued| :: queued[k].job != queued[l].job
  }

  ghost predicate AnswersOk(jobs: JobRows, answers: seq<Answer>) {
    forall k | 0 <= k < |answers| :: Serves(jobs, answers[k].job, answers[k].request)
  }

  ghost predicate Idle(s: State) {
    s.starts == map[] && s.applies == map[] && s.deciders == map[] && s.senders == map[]
  }

  ghost predicate StartsOk(db: Db, starts: map<string, StartTask>) {
    forall i | i in starts :: StartOk(db, i, starts[i])
  }

  ghost predicate AppliesOk(w: World, db: Db, applies: map<string, ApplyTask>) {
    forall i | i in applies :: ApplyOk(w, db, i, applies[i])
  }

  ghost predicate DecidersOk(db: Db, deciders: map<nat, Decider>) {
    forall d | d in deciders :: DeciderOk(db, deciders[d])
  }

  ghost predicate PostsOk(w: World, db: Db, posts: set<Post>) {
    forall post | post in posts :: PostOk(w, db, post)
  }

  ghost predicate TablesInv(w: World, s: State) {
    && RowsOk(w, s.db)
    && StartsOk(s.db, s.starts)
    && AppliesOk(w, s.db, s.applies)
    && DecidersOk(s.db, s.deciders)
    && PostsOk(w, s.db, s.posts)
    && DecisionsOk(s.db, s.decisions)
  }

  ghost predicate SendsInv(w: World, s: State) {
    && KeysUnique(s.jobs)
    && SendersOk(w, s.jobs, s.posts, s.senders)
    && SendersFresh(s.senders, s.queued)
    && QueuedOk(w, s.jobs, s.posts, s.queued)
    && QueuedOnce(s.queued)
    && AnswersOk(s.jobs, s.answers)
  }

  ghost predicate Inv(w: World, s: State) {
    && TablesInv(w, s)
    && SendsInv(w, s)
    && (s.phase != Up ==> Idle(s))
  }
}
