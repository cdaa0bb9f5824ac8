/** What the repair protocol guarantees over every run: any requests, any
    replies, any interleaving, any number of crashes at any point. */
module ProtocolTheorems {
  import opened Wrappers
  import opened Tables
  import opened Approvals
  import opened Protocol
  import opened ProtocolInvariant
  import opened ProtocolPreservation

  lemma {:induction false} RunInvariant(w: World, states: seq<State>, events: seq<Event>, k: nat)
    requires Run(w, states, events) && k < |states|
    ensures Inv(w, states[k])
  {
    if k > 0 {
      RunInvariant(w, states, events, k - 1);
      hide Inv, Step;
      StepPreserves(w, states[k - 1], events[k - 1], states[k]);
    }
  }

  // ---------- at most once ----------

  /** A key reaches an outbound queue at most once, whoever uses it. */
  lemma AtMostOneDispatchPerKey(w: World, states: seq<State>, events: seq<Event>, n: nat, a: nat, b: nat)
    requires Run(w, states, events) && n < |states|
    requires a < |states[n].queued| && b < |states[n].queued|
    requires states[n].queued[a].request.key.Some?
    requires states[n].queued[a].request.key == states[n].queued[b].request.key
    ensures a == b
  {
    RunInvariant(w, states, events, n);
    hide TablesInv, SendersOk, AnswersOk, SendersFresh;
    var s := states[n];
    assert DispatchOk(w, s.jobs, s.posts, s.queued[a]);
    assert DispatchOk(w, s.jobs, s.posts, s.queued[b]);
  }

  /** ... and so does a job, keyed or not. */
  lemma AtMostOneDispatchPerJob(w: World, states: seq<State>, events: seq<Event>, n: nat, a: nat, b: nat)
    requires Run(w, states, events) && n < |states|
    requires a < |states[n].queued| && b < |states[n].queued|
    requires states[n].queued[a].job == states[n].queued[b].job
    ensures a == b
  {
    RunInvariant(w, states, events, n);
    hide TablesInv, SendersOk, QueuedOk, AnswersOk, SendersFresh, Run;
  }

  /** An investigation has at most one proposal row at any time. */
  lemma AtMostOneProposal(w: World, states: seq<State>, events: seq<Event>, n: nat, p: string, q: string)
    requires Run(w, states, events) && n < |states|
    requires p in states[n].db.proposals && q in states[n].db.proposals
    requires states[n].db.proposals[p].investigation == states[n].db.proposals[q].investigation
    ensures p == q
  {
    RunInvariant(w, states, events, n);
    OneProposalIn(w, states[n].db);
  }

  lemma PostAt(w: World, s: State, post: Post)
    requires Inv(w, s) && post in s.posts
    ensures PostOk(w, s.db, post)
  {
  }

  lemma QueuedAt(w: World, s: State, a: nat)
    requires Inv(w, s) && a < |s.queued|
    ensures DispatchOk(w, s.jobs, s.posts, s.queued[a])
  {
  }

  /** At most one repair is ever dispatched for an investigation. */
  lemma AtMostOneRepair(w: World, states: seq<State>, events: seq<Event>, n: nat, a: nat, b: nat)
    requires Run(w, states, events) && n < |states|
    requires a < |states[n].queued| && b < |states[n].queued|
    requires states[n].queued[a].origin.Some? && states[n].queued[b].origin.Some?
    requires states[n].queued[a].origin.value.investigation == states[n].queued[b].origin.value.investigation
    ensures a == b
  {
    RunInvariant(w, states, events, n);
    var s := states[n];
    hide Inv, Run;
    QueuedAt(w, s, a);
    QueuedAt(w, s, b);
    PostAt(w, s, s.queued[a].origin.value);
    PostAt(w, s, s.queued[b].origin.value);
    AtMostOneProposal(w, states, events, n, s.queued[a].origin.value.proposal, s.queued[b].origin.value.proposal);
    AtMostOneDispatchPerKey(w, states, events, n, a, b);
  }

  // ---------- only what was approved ----------

  /** What a human approved, and how: the decision was recorded once, on a
      proposal then awaiting approval and not expired, by a request carrying the
      row's own hash; the script is the catalogue's for the reviewed repair and
      arguments; and it was authorised within the approval's lifetime. */
  ghost predicate WasApproved(w: World, s: State, entry: Dispatch) {
    entry.origin.Some? &&
    var post := entry.origin.value;
    post.proposal in s.db.proposals && post.investigation in s.db.investigations
    && post.proposal in s.decisions &&
    var row := s.db.proposals[post.proposal];
    var record := s.decisions[post.proposal];
    && entry.request == RequestFor(w, post)
    && row.investigation == post.investigation
    && row.verdict == Some(record.verdict) && record.verdict.outcome == Approve
    && record.statusRead == AwaitingApproval && record.statusAtCommit in {AwaitingApproval, Failed}
    && row.expiresAt.Some? && record.checkedAt < row.expiresAt.value
    && record.request.proposal == post.proposal && record.request.hash == row.hash
    && record.request.device == s.db.investigations[post.investigation].device == post.device
    && HashMatches(w, post.investigation, post.device, post.proposal, row)
    && row.content.repair.Some?
    && w.build(row.content.repair.value, row.content.arguments) == Some(entry.request.script)
    && row.content.script == Some(entry.request.script)
    && post.authorizedAt - record.verdict.decidedAt <= 900.0
  }

  lemma DecisionAt(w: World, s: State, p: string)
    requires Inv(w, s) && p in s.db.proposals && s.db.proposals[p].verdict.Some?
    ensures p in s.decisions && RecordOk(s.db, p, s.decisions[p])
  {
  }

  lemma ProposalOkAt(w: World, s: State, p: string)
    requires Inv(w, s) && p in s.db.proposals
    ensures ProposalOk(w, s.db, p)
  {
    ProposalAt(w, s.db, p);
  }

  lemma EveryRepairWasApproved(w: World, states: seq<State>, events: seq<Event>, n: nat, a: nat)
    requires Run(w, states, events) && n < |states|
    requires a < |states[n].queued| && states[n].queued[a].origin.Some?
    ensures WasApproved(w, states[n], states[n].queued[a])
  {
    RunInvariant(w, states, events, n);
    var s := states[n];
    hide Inv, Run;
    QueuedAt(w, s, a);
    var post := s.queued[a].origin.value;
    PostAt(w, s, post);
    DecisionAt(w, s, post.proposal);
    ProposalOkAt(w, s, post.proposal);
  }

  // ---------- decisions are final ----------

  lemma StartExtends(w: World, s: State, i: string, e: StartEvent, s': State)
    requires TablesInv(w, s) && StartStep(w, s, i, e, s')
    ensures Extends(s.db, s'.db) && s'.decisions == s.decisions
  {
    StartTaskOk(s.db, s.starts, i);
    StartFrame(w, s, i, e, s');
    hide TablesInv, Extends, HasProposal, SetNotes, CreateProposal, StoredRow, Propose, SetStatus;
    Unchanged(s.db);
    match e
    case Claim => if Claimable(s.db, i) { StatusWriteExtends(s.db, i, Investigating); }
    case Plan => StatusWriteExtends(s.db, i, Planning);
    case Announce =>
      StatusWriteExtends(s.db, i, if s.starts[i].decision == Proposed then AwaitingApproval else Completed);
    case MarkFailed => StatusWriteExtends(s.db, i, Failed);
    case WriteNotes(notes) => NotesWriteExtends(s.db, i, notes);
    case StoreProposal(p, choice, now, createdAt) =>
      if p !in s.db.proposals {
        NewProposalExtends(s.db, p,
                           StoredRow(w, i, s.db.investigations[i].device, p, Propose(w, choice), now, createdAt));
      }
    case _ =>
  }

  lemma ApplyExtends(w: World, s: State, i: string, e: ApplyEvent, s': State)
    requires ApplyStep(w, s, i, e, s')
    ensures Extends(s.db, s'.db) && s'.decisions == s.decisions
  {
    ApplyFrame(w, s, i, e, s');
    hide Extends, SetNotes, SetStatus;
    Unchanged(s.db);
    match e
    case Describe(notes) => NotesWriteExtends(s.db, i, notes);
    case MarkVerifying(_) => StatusWriteExtends(s.db, i, Verifying);
    case Finish =>
      StatusWriteExtends(s.db, i, if s.applies[i] == Confirmed(Some(true)) then Resolved else Unresolved);
    case MarkApplyFailed => StatusWriteExtends(s.db, i, Failed);
    case _ =>
  }

  lemma DecideExtends(w: World, s: State, d: nat, e: DecideEvent, s': State)
    requires DecideStep(w, s, d, e, s')
    ensures Extends(s.db, s'.db)
    ensures forall p | p in s.db.proposals && s.db.proposals[p].verdict.Some? && p in s.decisions ::
              p in s'.decisions && s'.decisions[p] == s.decisions[p]
  {
    hide Extends, SetStatus, CheckStep, CommitStep;
    Unchanged(s.db);
    match e
    case Check(current, now) => CheckFrame(w, s, d, current, now, s');
    case Commit(now) => CommitExtends(s, d, now, s');
    case Conclude =>
      var h := s.deciders[d];
      StatusWriteExtends(s.db, h.investigation, if h.decision == Approve then Applying else Rejected);
    case _ =>
  }

  lemma CommitExtends(s: State, d: nat, now: real, s': State)
    requires CommitStep(s, d, now, s')
    ensures Extends(s.db, s'.db)
    ensures forall p | p in s.db.proposals && s.db.proposals[p].verdict.Some? && p in s.decisions ::
              p in s'.decisions && s'.decisions[p] == s.decisions[p]
  {
    hide Extends, RecordDecision;
    Unchanged(s.db);
    var h := s.deciders[d];
    DecisionExtends(s.db, h.request.proposal, Verdict(now, h.operator, h.request.decision));
  }

  lemma StepExtends(w: World, s: State, e: Event, s': State)
    requires Inv(w, s) && Step(w, s, e, s')
    ensures Extends(s.db, s'.db)
    ensures forall p | p in s.db.proposals && s.db.proposals[p].verdict.Some? && p in s.decisions ::
              p in s'.decisions && s'.decisions[p] == s.decisions[p]
  {
    hide TablesInv, SendsInv, Idle, Extends, StartStep, ApplyStep, DecideStep, SendStep, Recovered, CreateInvestigation;
    Unchanged(s.db);
    match e
    case StartEvent(i, start) => StartExtends(w, s, i, start, s');
    case ApplyEvent(i, apply) => ApplyExtends(w, s, i, apply, s');
    case DecideEvent(d, decide) => DecideExtends(w, s, d, decide, s');
    case SendEvent(n, send) => SendFrame(w, s, n, send, s');
    case Recover(work) => RecoverExtends(s.db, s'.db, work);
    case Create(i, device, problem, operator, requestId) =>
      NewInvestigationExtends(s.db, i, device, problem, operator, requestId);
    case _ =>
  }

  lemma RunStep(w: World, states: seq<State>, events: seq<Event>, k: nat)
    requires Run(w, states, events) && k < |events|
    ensures |states| == |events| + 1 && Step(w, states[k], events[k], states[k + 1])
  {
  }

  lemma DecisionStays(w: World, s: State, e: Event, s': State, p: string)
    requires Inv(w, s) && Step(w, s, e, s')
    requires p in s.db.proposals && s.db.proposals[p].verdict.Some? && p in s.decisions
    ensures p in s'.db.proposals && s'.db.proposals[p] == s.db.proposals[p]
    ensures p in s'.decisions && s'.decisions[p] == s.decisions[p]
  {
    hide Inv, Step;
    StepExtends(w, s, e, s');
  }

  /** From the moment a proposal is decided, its row -- reviewed fields, binding
      and verdict -- and the record of how it was decided never change again. */
  lemma {:induction false} DecisionsAreFinal(w: World, states: seq<State>, events: seq<Event>, m: nat, n: nat,
                                             p: string)
    requires Run(w, states, events) && m <= n < |states|
    requires p in states[m].db.proposals && states[m].db.proposals[p].verdict.Some?
    ensures p in states[n].db.proposals && states[n].db.proposals[p] == states[m].db.proposals[p]
    ensures p in states[m].decisions && p in states[n].decisions && states[n].decisions[p] == states[m].decisions[p]
  {
    hide Inv, Step;
    RunInvariant(w, states, events, m);
    DecisionAt(w, states[m], p);
    if m < n {
      DecisionsAreFinal(w, states, events, m, n - 1, p);
      RunInvariant(w, states, events, n - 1);
      RunStep(w, states, events, n - 1);
      hide Run;
      DecisionStays(w, states[n - 1], events[n - 1], states[n], p);
    }
  }

  // ---------- what an accepted decision means ----------

  /** The request named this row, which is decided as it asked. */
  ghost predicate Stands(db: Db, a: Acceptance) {
    var p := a.request.proposal;
    && p in db.proposals && db.proposals[p].investigation == a.investigation
    && db.proposals[p].hash == a.request.hash
    && db.proposals[p].verdict.Some? && db.proposals[p].verdict.value.outcome == a.request.decision
  }

  /** A step adds at most one acceptance, and only of a decision that stands. */
  lemma AcceptsWhatStands(w: World, s: State, e: Event, s': State)
    requires Inv(w, s) && Step(w, s, e, s')
    ensures s.accepted <= s'.accepted && |s'.accepted| <= |s.accepted| + 1
    ensures |s'.accepted| > |s.accepted| ==> Stands(s'.db, s'.accepted[|s.accepted|])
  {
    hide Inv, DecideStep, StartStep, ApplyStep, SendStep, Recovered, CreateInvestigation, OrphanActiveJobs, Stands;
    match e
    case DecideEvent(d, decide) => DecideAccepts(w, s, d, decide, s');
    case StartEvent(i, start) => StartFrame(w, s, i, start, s');
    case ApplyEvent(i, apply) => ApplyFrame(w, s, i, apply, s');
    case SendEvent(n, send) => SendFrame(w, s, n, send, s');
    case _ =>
  }

  lemma DecideAccepts(w: World, s: State, d: nat, e: DecideEvent, s': State)
    requires Inv(w, s) && DecideStep(w, s, d, e, s')
    ensures s.accepted <= s'.accepted && |s'.accepted| <= |s.accepted| + 1
    ensures |s'.accepted| > |s.accepted| ==> Stands(s'.db, s'.accepted[|s.accepted|])
  {
    hide Inv, CheckStep, CommitStep, ConcludeStep, Stands;
    match e
    case Check(current, now) => CheckAccepts(w, s, d, current, now, s');
    case Commit(now) => CommitAccepts(w, s, d, now, s');
    case Conclude => ConcludeFrame(s, d, s');
    case _ =>
  }

  lemma CheckAccepts(w: World, s: State, d: nat, current: Option<string>, now: real, s': State)
    requires CheckStep(w, s, d, current, now, s')
    ensures s.accepted <= s'.accepted && |s'.accepted| <= |s.accepted| + 1 && s'.db == s.db
    ensures |s'.accepted| > |s.accepted| ==> Stands(s'.db, s'.accepted[|s.accepted|])
  {
    hide Judging, HashMatches;
  }

  lemma CommitAccepts(w: World, s: State, d: nat, now: real, s': State)
    requires Inv(w, s) && CommitStep(s, d, now, s')
    ensures s.accepted <= s'.accepted && |s'.accepted| <= |s.accepted| + 1
    ensures |s'.accepted| > |s.accepted| ==> Stands(s'.db, s'.accepted[|s.accepted|])
  {
    ReviewedAt(w, s, d);
    hide Inv;
  }

  lemma ReviewedAt(w: World, s: State, d: nat)
    requires Inv(w, s) && d in s.deciders && s.deciders[d].Judged?
    ensures var h := s.deciders[d]; Reviewed(s.db, h.investigation, h.request.proposal, h.request, h.checkedAt)
  {
    DeciderAt(s.db, s.deciders, d);
  }

  /** From the moment a decision is answered as accepted, for the rest of the run, the
      row it named is decided exactly as it asked. */
  lemma {:induction false} AcceptedDecisionsStand(w: World, states: seq<State>, events: seq<Event>, n: nat, k: nat)
    requires Run(w, states, events) && n < |states| && k < |states[n].accepted|
    ensures Stands(states[n].db, states[n].accepted[k])
  {
    if n > 0 {
      RunInvariant(w, states, events, n - 1);
      RunStep(w, states, events, n - 1);
      if k < |states[n - 1].accepted| { AcceptedDecisionsStand(w, states, events, n - 1, k); }
      var s, e, t := states[n - 1], events[n - 1], states[n];
      hide *;
      KeepsStanding(w, s, e, t, k);
    } else {
      NothingAccepted(w, states, events);
    }
  }

  lemma KeepsStanding(w: World, s: State, e: Event, s': State, k: nat)
    requires Inv(w, s) && Step(w, s, e, s') && k < |s'.accepted|
    requires k < |s.accepted| ==> Stands(s.db, s.accepted[k])
    ensures Stands(s'.db, s'.accepted[k])
  {
    hide Inv, Step;
    AcceptsWhatStands(w, s, e, s');
    if k < |s.accepted| {
      StepExtends(w, s, e, s');
      assert s'.accepted[k] == s.accepted[k];
      StillStands(s.db, s'.db, s.accepted[k]);
    }
  }

  lemma NothingAccepted(w: World, states: seq<State>, events: seq<Event>)
    requires Run(w, states, events)
    ensures states[0].accepted == []
  {
    hide Step;
  }

  lemma StillStands(s: Db, t: Db, a: Acceptance)
    requires Stands(s, a) && Extends(s, t)
    ensures Stands(t, a)
  {
  }

  // ---------- idempotent dispatch ----------

  /** Every accepted call under one key, before or after crashes, is answered
      with the same job, and asked for the same thing. */
  lemma AnswersAgree(w: World, states: seq<State>, events: seq<Event>, n: nat, a: nat, b: nat)
    requires Run(w, states, events) && n < |states|
    requires a < |states[n].answers| && b < |states[n].answers|
    requires states[n].answers[a].request.key.Some?
    requires states[n].answers[a].request.key == states[n].answers[b].request.key
    ensures states[n].answers[a] == states[n].answers[b]
  {
    RunInvariant(w, states, events, n);
    hide TablesInv, SendersOk, QueuedOk, SendersFresh;
    var s := states[n];
    assert Serves(s.jobs, s.answers[a].job, s.answers[a].request);
    assert Serves(s.jobs, s.answers[b].job, s.answers[b].request);
  }

  // ---------- recovery ----------

  lemma InvestigationAt(w: World, s: State, i: string)
    requires Inv(w, s) && i in s.db.investigations
    ensures InvestigationOk(s.db, i)
  {
  }

  lemma NoProposalYet(w: World, s: State, i: string)
    requires Inv(w, s) && i in s.db.investigations && s.db.investigations[i].status in {Queued, Investigating}
    ensures !HasProposal(s.db, i)
  {
    EarlyFits(w, s.db, i, Investigating);
  }

  /** What recovery did with an investigation that was unfinished. */
  ghost predicate Classified(before: Db, after: Db, work: set<(string, Kind)>, i: string)
    requires i in before.investigations && i in after.investigations
  {
    var earlier := before.investigations[i].status;
    if !Settled(earlier) then Restarted(after, work, i)
    else if Decided(before, i, Approve) then Resumed(after, work, i)
    else if Decided(before, i, Reject) then Closed(after, work, i)
    else earlier == AwaitingApproval && after.investigations[i] == before.investigations[i] && Waiting(after, work, i)
  }

  ghost predicate Restarted(after: Db, work: set<(string, Kind)>, i: string)
    requires i in after.investigations
  {
    && (i, Start) in work && (i, Apply) !in work && after.investigations[i].status == Queued
    && Fresh(after.investigations[i].notes) && !HasProposal(after, i)
  }

  ghost predicate Resumed(after: Db, work: set<(string, Kind)>, i: string)
    requires i in after.investigations
  {
    && (i, Apply) in work && (i, Start) !in work && after.investigations[i].status == Applying
    && Decided(after, i, Approve)
  }

  ghost predicate Closed(after: Db, work: set<(string, Kind)>, i: string)
    requires i in after.investigations
  {
    && (i, Apply) !in work && (i, Start) !in work && after.investigations[i].status == Status.Rejected
    && Decided(after, i, Reject)
  }

  ghost predicate Waiting(after: Db, work: set<(string, Kind)>, i: string) {
    && (i, Apply) !in work && (i, Start) !in work
    && exists p :: Undecided(after, p) && after.proposals[p].investigation == i
                   && after.proposals[p].content.decision == Proposed
  }

  lemma NoDecisionBothWays(w: World, s: State, i: string, p: string, outcome: Outcome)
    requires Inv(w, s) && DecidedAs(s.db, i, p, outcome)
    ensures forall other :: Decided(s.db, i, other) <==> other == outcome
  {
    OneProposalIn(w, s.db);
  }

  /** From every reachable state in which the process may have died, recovery
      restarts exactly the interrupted diagnoses from a clean snapshot, resumes
      exactly the approved repairs, carries out recorded rejections, and leaves
      exactly the undecided proposals waiting. In particular an approval is
      never found missing. */
  lemma RecoveryClassifies(w: World, states: seq<State>, events: seq<Event>, n: nat, after: Db,
                           work: set<(string, Kind)>, i: string)
    requires Run(w, states, events) && n < |states| && Recovered(states[n].db, after, work)
    requires i in states[n].db.investigations && Unfinished(states[n].db.investigations[i].status)
    ensures i in after.investigations && Classified(states[n].db, after, work, i)
  {
    RunInvariant(w, states, events, n);
    var s := states[n];
    hide Run, Step;
    if Settled(s.db.investigations[i].status) {
      SettledClassified(w, s, after, work, i);
    } else {
      EarlyClassified(w, s, after, work, i);
    }
  }

  /** Finished investigations and recorded decisions are left exactly as they were. */
  lemma RecoveryLeavesTheRest(before: Db, after: Db, work: set<(string, Kind)>, i: string, p: string)
    requires Recovered(before, after, work)
    ensures i in before.investigations && !Unfinished(before.investigations[i].status) ==>
              (i in after.investigations && after.investigations[i] == before.investigations[i]
               && (i, Start) !in work && (i, Apply) !in work)
    ensures p in before.proposals && before.proposals[p].verdict.Some? ==>
              (p in after.proposals && after.proposals[p] == before.proposals[p])
    ensures p in after.proposals ==> p in before.proposals && after.proposals[p] == before.proposals[p]
  {
    if i in before.investigations { var current := RecoveredRow(before, after, work, i); }
  }

  lemma EarlyClassified(w: World, s: State, after: Db, work: set<(string, Kind)>, i: string)
    requires Inv(w, s) && Recovered(s.db, after, work)
    requires i in s.db.investigations && !Settled(s.db.investigations[i].status)
    ensures i in after.investigations && Classified(s.db, after, work, i)
  {
    var current := RecoveredRow(s.db, after, work, i);
    InvestigationAt(w, s, i);
    if s.db.investigations[i].status != Planning { NoProposalYet(w, s, i); }
    assert !HasProposal(after, i) by {
      forall p | p in after.proposals ensures after.proposals[p].investigation != i {
        RecoveredProposal(s.db, after, work, p);
        ProposalOkAt(w, s, p);
      }
    }
  }

  lemma SettledClassified(w: World, s: State, after: Db, work: set<(string, Kind)>, i: string)
    requires Inv(w, s) && Recovered(s.db, after, work) && i in s.db.investigations
    requires Settled(s.db.investigations[i].status) && Unfinished(s.db.investigations[i].status)
    ensures i in after.investigations && Classified(s.db, after, work, i)
  {
    var current := RecoveredRow(s.db, after, work, i);
    CurrentExists(w, s, i, current);
    hide Inv, Recovered, Classified, CurrentIs, Decided;
    if s.db.proposals[current.value].verdict.Some? {
      DecidedClassified(w, s, after, work, i, current.value);
    } else {
      UndecidedClassified(w, s, after, work, i, current.value);
    }
  }

  lemma CurrentExists(w: World, s: State, i: string, current: Option<string>)
    requires Inv(w, s) && i in s.db.investigations && CurrentIs(s.db, i, current)
    requires Settled(s.db.investigations[i].status) && Unfinished(s.db.investigations[i].status)
    ensures current.Some? && IsCurrent(s.db, i, current.value)
  {
    InvestigationAt(w, s, i);
    hide Inv;
  }

  lemma UndecidedClassified(w: World, s: State, after: Db, work: set<(string, Kind)>, i: string, p: string)
    requires Inv(w, s) && Recovered(s.db, after, work) && i in s.db.investigations && i in after.investigations
    requires Settled(s.db.investigations[i].status) && Unfinished(s.db.investigations[i].status)
    requires IsCurrent(s.db, i, p) && s.db.proposals[p].verdict.None?
    requires after.investigations[i] == RecoverRow(s.db.investigations[i], None)
    requires forall k :: (i, k) in work <==> RecoverKind(s.db.investigations[i], None) == Some(k)
    ensures Classified(s.db, after, work, i)
  {
    hide Inv, Recovered, Decided, HasProposal, Fresh;
    UndecidedRow(w, s, i, p);
    WaitingKept(s.db, after, work, i, p);
  }

  lemma WaitingKept(before: Db, after: Db, work: set<(string, Kind)>, i: string, p: string)
    requires Recovered(before, after, work) && i in before.investigations
    requires before.investigations[i].status == AwaitingApproval
    requires p in before.proposals && before.proposals[p].investigation == i && before.proposals[p].verdict.None?
    ensures p in after.proposals && after.proposals[p] == before.proposals[p]
  {
  }

  lemma UndecidedRow(w: World, s: State, i: string, p: string)
    requires Inv(w, s) && i in s.db.investigations && Unfinished(s.db.investigations[i].status)
    requires Settled(s.db.investigations[i].status) && IsCurrent(s.db, i, p) && s.db.proposals[p].verdict.None?
    ensures s.db.investigations[i].status == AwaitingApproval && s.db.proposals[p].content.decision == Proposed
    ensures !Decided(s.db, i, Approve) && !Decided(s.db, i, Reject)
  {
    ProposalOkAt(w, s, p);
    NobodyDecided(w, s, i, p);
    hide Inv, Decided;
  }

  lemma DecidedClassified(w: World, s: State, after: Db, work: set<(string, Kind)>, i: string, p: string)
    requires Inv(w, s) && Recovered(s.db, after, work) && i in s.db.investigations && i in after.investigations
    requires Settled(s.db.investigations[i].status) && Unfinished(s.db.investigations[i].status)
    requires IsCurrent(s.db, i, p) && s.db.proposals[p].verdict.Some?
    requires after.investigations[i] == RecoverRow(s.db.investigations[i], LatestOutcome(s.db, Some(p)))
    requires forall k ::
               (i, k) in work <==> RecoverKind(s.db.investigations[i], LatestOutcome(s.db, Some(p))) == Some(k)
    ensures Classified(s.db, after, work, i)
  {
    var outcome := s.db.proposals[p].verdict.value.outcome;
    assert LatestOutcome(s.db, Some(p)) == Some(outcome) && DecidedAs(s.db, i, p, outcome);
    hide Inv, Recovered, Extends, IsCurrent, Decided, DecidedAs, LatestOutcome, RecoverRow,
         RecoverKind, HasProposal, Fresh, Undecided;
    NoDecisionBothWays(w, s, i, p, outcome);
    RecoverExtends(s.db, after, work);
    DecidedAlready(s.db, i, p, outcome);
    DecidedStays(s.db, after, i, outcome);
    DecidedRow(s.db.investigations[i], outcome);
    assert (i, Apply) in work <==> outcome == Approve;
    assert (i, Start) !in work;
    hide *;
    OneWayClassified(s.db, after, work, i, outcome);
  }

  lemma OneWayClassified(before: Db, after: Db, work: set<(string, Kind)>, i: string, outcome: Outcome)
    requires i in before.investigations && i in after.investigations && Settled(before.investigations[i].status)
    requires forall other :: Decided(before, i, other) <==> other == outcome
    requires Decided(after, i, outcome) && ((i, Apply) in work <==> outcome == Approve) && (i, Start) !in work
    requires after.investigations[i].status == if outcome == Approve then Applying else Status.Rejected
    ensures Classified(before, after, work, i)
  {
    hide Decided, Settled;
  }

  lemma DecidedAlready(db: Db, i: string, p: string, outcome: Outcome)
    requires DecidedAs(db, i, p, outcome)
    ensures Decided(db, i, outcome)
  {
  }

  lemma DecidedRow(row: InvestigationRow, outcome: Outcome)
    requires Settled(row.status) && Unfinished(row.status)
    ensures RecoverRow(row, Some(outcome)).status == if outcome == Approve then Applying else Status.Rejected
    ensures RecoverKind(row, Some(outcome)) == if outcome == Approve then Some(Apply) else None
  {
  }

  lemma NobodyDecided(w: World, s: State, i: string, p: string)
    requires Inv(w, s) && Undecided(s.db, p) && s.db.proposals[p].investigation == i
    ensures !Decided(s.db, i, Approve) && !Decided(s.db, i, Reject)
  {
    OneProposalAt(w, s);
  }

  lemma OneProposalAt(w: World, s: State)
    requires Inv(w, s)
    ensures OneProposal(s.db)
  {
    OneProposalIn(w, s.db);
  }

  /** Recovering again, with no progress in between, changes nothing and returns the same work. */
  lemma RecoveryIsIdempotent(w: World, states: seq<State>, events: seq<Event>, n: nat,
                             once: Db, work: set<(string, Kind)>, twice: Db, again: set<(string, Kind)>)
    requires Run(w, states, events) && n < |states|
    requires Recovered(states[n].db, once, work) && Recovered(once, twice, again)
    ensures twice == once && again == work
  {
    RunInvariant(w, states, events, n);
    var s := states[n];
    hide Inv, Run, Step, RowsOk, OneProposal;
    OneProposalAt(w, s);
    RecoveredRowsOk(w, s, once, work);
    RowsRecoverTwice(s.db, once, work, twice, again);
    NothingMoreDiscarded(w, s.db, once, work);
  }

  lemma RecoveredRowsOk(w: World, s: State, once: Db, work: set<(string, Kind)>)
    requires Inv(w, s) && Recovered(s.db, once, work)
    ensures RowsOk(w, once)
  {
    hide RowsOk;
    RecoverKeepsRows(w, s.db, once, work);
  }

  lemma WorkTwice(a: Db, once: Db, work: set<(string, Kind)>, twice: Db, again: set<(string, Kind)>, x: (string, Kind))
    requires OneProposal(a) && Recovered(a, once, work) && Recovered(once, twice, again)
    ensures x in again <==> x in work
  {
    if x.0 in a.investigations {
      RecoverRowTwice(a, once, work, twice, again, x.0);
      assert x == (x.0, x.1);
    }
  }

  lemma RowsRecoverTwice(a: Db, once: Db, work: set<(string, Kind)>, twice: Db, again: set<(string, Kind)>)
    requires OneProposal(a) && Recovered(a, once, work) && Recovered(once, twice, again)
    ensures twice.investigations == once.investigations && again == work
  {
    RecoveredKeys(a, once, work);
    RecoveredKeys(once, twice, again);
    hide *;
    SameRows(a, once, work, twice, again);
    SameWork(a, once, work, twice, again);
  }

  lemma SameRows(a: Db, once: Db, work: set<(string, Kind)>, twice: Db, again: set<(string, Kind)>)
    requires OneProposal(a) && Recovered(a, once, work) && Recovered(once, twice, again)
    requires twice.investigations.Keys == once.investigations.Keys == a.investigations.Keys
    ensures twice.investigations == once.investigations
  {
    hide *;
    forall i | i in once.investigations ensures twice.investigations[i] == once.investigations[i] {
      RecoverRowTwice(a, once, work, twice, again, i);
    }
  }

  lemma SameWork(a: Db, once: Db, work: set<(string, Kind)>, twice: Db, again: set<(string, Kind)>)
    requires OneProposal(a) && Recovered(a, once, work) && Recovered(once, twice, again)
    ensures again == work
  {
    hide *;
    forall x ensures x in again <==> x in work {
      WorkTwice(a, once, work, twice, again, x);
    }
  }

  lemma NothingMoreDiscarded(w: World, a: Db, once: Db, work: set<(string, Kind)>)
    requires Recovered(a, once, work) && RowsOk(w, once)
    ensures KeptProposals(once) == once.proposals
  {
    hide RowsOk;
    forall p | p in once.proposals ensures !Discarded(once, p) {
      ProposalAt(w, once, p);
      NotMidDiagnosis(a, once, work, once.proposals[p].investigation);
    }
  }

  lemma NotMidDiagnosis(a: Db, b: Db, work: set<(string, Kind)>, i: string)
    requires Recovered(a, b, work) && i in b.investigations
    ensures b.investigations[i].status !in {Investigating, Planning}
  {
    var p := RecoveredRow(a, b, work, i);
  }

  lemma RecoverRowTwice(a: Db, once: Db, work: set<(string, Kind)>, twice: Db, again: set<(string, Kind)>, i: string)
    requires OneProposal(a) && Recovered(a, once, work) && Recovered(once, twice, again) && i in a.investigations
    ensures i in once.investigations && i in twice.investigations
    ensures twice.investigations[i] == once.investigations[i]
    ensures forall k :: (i, k) in again <==> (i, k) in work
  {
    var p := RecoveredRow(a, once, work, i);
    var q := RecoveredRow(once, twice, again, i);
    if Settled(a.investigations[i].status) { SameOutcome(a, once, work, i, p, q); }
    hide Recovered, CurrentIs, OneProposal, LatestOutcome, RecoverRow, RecoverKind;
    RecoverAgain(a.investigations[i], LatestOutcome(a, p), LatestOutcome(once, q));
  }

  /** Recovery has nothing to do for this row. */
  predicate AtRest(row: InvestigationRow, decision: Option<Outcome>) {
    match row.status
    case Investigating | Planning | Verifying => false
    case AwaitingApproval => decision.None?
    case Applying => decision == Some(Approve)
    case _ => true
  }

  lemma RecoverAgain(row: InvestigationRow, first: Option<Outcome>, second: Option<Outcome>)
    requires Settled(row.status) ==> first == second
    ensures var once := RecoverRow(row, first);
            RecoverRow(once, second) == once && RecoverKind(once, second) == RecoverKind(row, first)
  {
    RecoveredRests(row, first, second);
    RestingStays(RecoverRow(row, first), second);
    RecoveredKind(row, first, second);
    hide RecoverRow, RecoverKind, AtRest;
  }

  lemma RecoveredRests(row: InvestigationRow, first: Option<Outcome>, second: Option<Outcome>)
    requires Settled(row.status) ==> first == second
    ensures AtRest(RecoverRow(row, first), second)
  {
    match first
    case None =>
    case Some(Approve) =>
    case Some(Reject) =>
  }

  lemma RecoveredKind(row: InvestigationRow, first: Option<Outcome>, second: Option<Outcome>)
    requires Settled(row.status) ==> first == second
    ensures RecoverKind(RecoverRow(row, first), second) == RecoverKind(row, first)
  {
  }

  lemma RestingStays(row: InvestigationRow, decision: Option<Outcome>)
    requires AtRest(row, decision)
    ensures RecoverRow(row, decision) == row
  {
    match row.status
    case Queued =>
    case AwaitingApproval =>
    case Applying =>
    case _ =>
  }

  lemma SameOutcome(a: Db, once: Db, work: set<(string, Kind)>, i: string, p: Option<string>, q: Option<string>)
    requires OneProposal(a) && Recovered(a, once, work) && CurrentIs(a, i, p) && CurrentIs(once, i, q)
    requires i in a.investigations && Settled(a.investigations[i].status)
    ensures LatestOutcome(once, q) == LatestOutcome(a, p)
  {
    if p.Some? {
      assert p.value in once.proposals && once.proposals[p.value].investigation == i;
      assert HasProposal(once, i);
      RecoveredProposal(a, once, work, q.value);
    } else {
      forall x | x in once.proposals ensures once.proposals[x].investigation != i {
        RecoveredProposal(a, once, work, x);
      }
    }
  }

  // ---------- the human's side ----------

  /** In every reachable state, a decision that echoes the current row's own
      binding is recorded exactly when the proposal is still awaiting one and,
      to approve, has not expired. */
  lemma EchoedDecisionIsRecorded(w: World, states: seq<State>, events: seq<Event>, n: nat, p: string,
                                 decision: Outcome, now: real)
    requires Run(w, states, events) && n < |states| && p in states[n].db.proposals
    ensures var db := states[n].db;
            var row := db.proposals[p];
            row.investigation in db.investigations &&
            var inv := db.investigations[row.investigation];
            var request := DecisionRequest(p, row.hash, inv.device, decision);
            (Judge(w, row.investigation, inv.device, inv.status, Some((p, row)), request, now) == Record)
              <==> (row.verdict.None? && inv.status == AwaitingApproval
                   && (decision == Approve ==> row.expiresAt.Some? && now < row.expiresAt.value))
  {
    RunInvariant(w, states, events, n);
    hide Inv, Run;
    ProposalOkAt(w, states[n], p);
  }

  /** An approved row is authorised exactly while its approval is fresh, and the
      script is the one that was reviewed. */
  lemma ApprovedRowIsAuthorized(w: World, states: seq<State>, events: seq<Event>, n: nat, p: string, now: real)
    requires Run(w, states, events) && n < |states| && p in states[n].db.proposals
    requires states[n].db.proposals[p].verdict.Some? && states[n].db.proposals[p].verdict.value.outcome == Approve
    ensures var db := states[n].db;
            var row := db.proposals[p];
            row.investigation in db.investigations &&
            var device := db.investigations[row.investigation].device;
            var result := Authorize(w, ProposalFromRow(device, p, row), Some(ApprovalFromRow(device, p, row)), now);
            && (result.Success? <==> now - row.verdict.value.decidedAt <= 900.0)
            && (result.Success? ==> row.content.script == Some(result.value))
  {
    RunInvariant(w, states, events, n);
    hide Inv, Run;
    ProposalOkAt(w, states[n], p);
    DecisionAt(w, states[n], p);
  }
}
