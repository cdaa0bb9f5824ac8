/** One request from one operator creates at most one investigation, over every
    run: retries, crashes and recoveries included. */
module ProtocolRequests {
  import opened Wrappers
  import opened Tables
  import opened Approvals
  import opened Protocol
  import opened ProtocolPreservation

  /** The unique index on (created_by, request_id). */
  ghost predicate RequestsUnique(db: Db) {
    forall i, k | i in db.investigations && k in db.investigations
      && db.investigations[i].createdBy == db.investigations[k].createdBy
      && db.investigations[i].requestId == db.investigations[k].requestId :: i == k
  }

  /** What was asked for, on which device and by whom, is never rewritten. */
  ghost predicate SameRequests(a: Db, b: Db) {
    && b.investigations.Keys == a.investigations.Keys
    && forall i | i in a.investigations ::
         b.investigations[i].(status := Queued, notes := CLEAN)
         == a.investigations[i].(status := Queued, notes := CLEAN)
  }

  lemma SameRequestsUnique(a: Db, b: Db)
    requires RequestsUnique(a) && SameRequests(a, b)
    ensures RequestsUnique(b)
  {
    forall i, k | i in b.investigations && k in b.investigations
      && b.investigations[i].createdBy == b.investigations[k].createdBy
      && b.investigations[i].requestId == b.investigations[k].requestId
      ensures i == k
    {
      assert i in a.investigations && k in a.investigations;
    }
  }

  lemma Unwritten(db: Db)
    ensures SameRequests(db, db)
  {
  }

  lemma StatusKeepsRequests(db: Db, i: string, status: Status)
    ensures SameRequests(db, SetStatus(db, i, status))
  {
  }

  lemma NotesKeepRequests(db: Db, i: string, notes: Notes)
    ensures SameRequests(db, SetNotes(db, i, notes))
  {
  }

  lemma ProposalKeepsRequests(db: Db, p: string, row: ProposalRow)
    requires p !in db.proposals
    ensures SameRequests(db, CreateProposal(db, p, row))
  {
  }

  lemma DecisionKeepsRequests(db: Db, p: string, verdict: Verdict)
    ensures SameRequests(db, RecordDecision(db, p, verdict))
  {
  }

  lemma CreateKeepsUnique(db: Db, i: string, device: string, problem: string, operator: string, requestId: string)
    requires RequestsUnique(db)
    ensures RequestsUnique(CreateInvestigation(db, i, device, problem, operator, requestId))
  {
  }

  lemma RecoveryKeepsRequests(a: Db, b: Db, work: set<(string, Kind)>)
    requires Recovered(a, b, work)
    ensures SameRequests(a, b)
  {
    RecoveredKeys(a, b, work);
    hide Recovered, RecoverRow, CurrentIs, LatestOutcome;
    forall i | i in a.investigations
      ensures b.investigations[i].(status := Queued, notes := CLEAN)
              == a.investigations[i].(status := Queued, notes := CLEAN)
    {
      var p := RecoveredRow(a, b, work, i);
      RecoverRowKeeps(a.investigations[i], LatestOutcome(a, p));
    }
  }

  lemma RecoverRowKeeps(row: InvestigationRow, decision: Option<Outcome>)
    ensures RecoverRow(row, decision).(status := Queued, notes := CLEAN) == row.(status := Queued, notes := CLEAN)
  {
  }

  lemma StartKeepsRequests(w: World, s: State, i: string, e: StartEvent, s': State)
    requires StartStep(w, s, i, e, s')
    ensures SameRequests(s.db, s'.db)
  {
    hide SameRequests, SetNotes, CreateProposal, StoredRow, Propose, SetStatus;
    Unwritten(s.db);
    match e
    case Claim => StatusKeepsRequests(s.db, i, Investigating);
    case Plan => StatusKeepsRequests(s.db, i, Planning);
    case Announce =>
      StatusKeepsRequests(s.db, i, if s.starts[i].decision == Proposed then AwaitingApproval else Completed);
    case MarkFailed => StatusKeepsRequests(s.db, i, Failed);
    case WriteNotes(notes) => NotesKeepRequests(s.db, i, notes);
    case StoreProposal(p, choice, now, createdAt) =>
      if p !in s.db.proposals {
        ProposalKeepsRequests(s.db, p,
                              StoredRow(w, i, s.db.investigations[i].device, p, Propose(w, choice), now, createdAt));
      }
    case _ =>
  }

  lemma ApplyKeepsRequests(w: World, s: State, i: string, e: ApplyEvent, s': State)
    requires ApplyStep(w, s, i, e, s')
    ensures SameRequests(s.db, s'.db)
  {
    hide SameRequests, SetNotes, SetStatus;
    Unwritten(s.db);
    match e
    case Describe(notes) => NotesKeepRequests(s.db, i, notes);
    case MarkVerifying(_) => StatusKeepsRequests(s.db, i, Verifying);
    case Finish =>
      StatusKeepsRequests(s.db, i, if s.applies[i] == Confirmed(Some(true)) then Resolved else Unresolved);
    case MarkApplyFailed => StatusKeepsRequests(s.db, i, Failed);
    case _ =>
  }

  lemma DecideKeepsRequests(w: World, s: State, d: nat, e: DecideEvent, s': State)
    requires DecideStep(w, s, d, e, s')
    ensures SameRequests(s.db, s'.db)
  {
    hide SameRequests, SetStatus, RecordDecision, Judge, CheckStep;
    Unwritten(s.db);
    match e
    case Check(current, now) => CheckFrame(w, s, d, current, now, s');
    case Commit(now) =>
      var h := s.deciders[d];
      DecisionKeepsRequests(s.db, h.request.proposal, Verdict(now, h.operator, h.request.decision));
    case Conclude =>
      var h := s.deciders[d];
      StatusKeepsRequests(s.db, h.investigation, if h.decision == Approve then Applying else Rejected);
    case _ =>
  }

  lemma StepKeepsUnique(w: World, s: State, e: Event, s': State)
    requires RequestsUnique(s.db) && Step(w, s, e, s')
    ensures RequestsUnique(s'.db)
  {
    hide RequestsUnique, SameRequests, StartStep, ApplyStep, DecideStep, SendStep, Recovered, CreateInvestigation;
    Unwritten(s.db);
    match e {
      case StartEvent(i, start) => StartKeepsRequests(w, s, i, start, s');
      case ApplyEvent(i, apply) => ApplyKeepsRequests(w, s, i, apply, s');
      case DecideEvent(d, decide) => DecideKeepsRequests(w, s, d, decide, s');
      case SendEvent(n, send) => SendFrame(w, s, n, send, s');
      case Recover(work) => RecoveryKeepsRequests(s.db, s'.db, work);
      case Create(i, device, problem, operator, requestId) =>
        CreateKeepsUnique(s.db, i, device, problem, operator, requestId);
      case _ =>
    }
    if !e.Create? { SameRequestsUnique(s.db, s'.db); }
  }

  lemma OneInvestigationPerRequest(w: World, states: seq<State>, events: seq<Event>, n: nat, i: string, k: string)
    requires Run(w, states, events) && n < |states|
    requires i in states[n].db.investigations && k in states[n].db.investigations
    requires states[n].db.investigations[i].createdBy == states[n].db.investigations[k].createdBy
    requires states[n].db.investigations[i].requestId == states[n].db.investigations[k].requestId
    ensures i == k
  {
    RunKeepsUnique(w, states, events, n);
  }

  lemma {:induction false} RunKeepsUnique(w: World, states: seq<State>, events: seq<Event>, n: nat)
    requires Run(w, states, events) && n < |states|
    ensures RequestsUnique(states[n].db)
  {
    if n > 0 {
      hide Step;
      RunKeepsUnique(w, states, events, n - 1);
      assert Step(w, states[n - 1], events[n - 1], states[n]);
      hide Run, RequestsUnique;
      StepKeepsUnique(w, states[n - 1], events[n - 1], states[n]);
    }
  }
}
