/** Every event of the protocol preserves its invariant. Each lemma sees only the
    components it is about; the events are put together at the end. */
module ProtocolPreservation {
  import opened Wrappers
  import opened Tables
  import opened Approvals
  import opened Protocol
  import opened ProtocolInvariant

  // ---------- what no step takes back ----------

  /** Investigations and their devices stay, settled stays settled, and a decided
      proposal row stays exactly as it is. */
  ghost predicate Extends(a: Db, b: Db) {
    && (forall i | i in a.investigations ::
          && i in b.investigations && b.investigations[i].device == a.investigations[i].device
          && (Settled(a.investigations[i].status) ==> Settled(b.investigations[i].status)))
    && (forall p | p in a.proposals && a.proposals[p].verdict.Some? ::
          p in b.proposals && b.proposals[p] == a.proposals[p])
  }

  /** No proposal is deleted, and only its verdict may be filled in. */
  ghost predicate KeepsProposals(a: Db, b: Db) {
    forall p | p in a.proposals ::
      p in b.proposals && b.proposals[p].(verdict := None) == a.proposals[p].(verdict := None)
  }

  lemma Unchanged(db: Db)
    ensures Extends(db, db)
  {
  }

  lemma StatusWriteExtends(db: Db, i: string, status: Status)
    requires IsSettled(db, i) ==> Settled(status)
    ensures Extends(db, SetStatus(db, i, status)) && KeepsProposals(db, SetStatus(db, i, status))
  {
  }

  lemma NotesWriteExtends(db: Db, i: string, notes: Notes)
    ensures Extends(db, SetNotes(db, i, notes)) && KeepsProposals(db, SetNotes(db, i, notes))
  {
  }

  lemma NewProposalExtends(db: Db, p: string, row: ProposalRow)
    requires p !in db.proposals
    ensures Extends(db, CreateProposal(db, p, row)) && KeepsProposals(db, CreateProposal(db, p, row))
  {
  }

  lemma NewInvestigationExtends(db: Db, i: string, device: string, problem: string, operator: string, requestId: string)
    ensures var after := CreateInvestigation(db, i, device, problem, operator, requestId);
            Extends(db, after) && KeepsProposals(db, after)
  {
  }

  lemma DecisionExtends(db: Db, p: string, verdict: Verdict)
    ensures Extends(db, RecordDecision(db, p, verdict)) && KeepsProposals(db, RecordDecision(db, p, verdict))
  {
  }

  lemma DecidedStays(a: Db, b: Db, i: string, outcome: Outcome)
    requires Extends(a, b) && Decided(a, i, outcome)
    ensures Decided(b, i, outcome)
  {
    var p :| DecidedAs(a, i, p, outcome);
    assert DecidedAs(b, i, p, outcome);
  }

  lemma PostsStay(w: World, a: Db, b: Db, posts: set<Post>)
    requires Extends(a, b) && PostsOk(w, a, posts)
    ensures PostsOk(w, b, posts)
  {
  }

  lemma ApplyStays(w: World, a: Db, b: Db, i: string, task: ApplyTask)
    requires Extends(a, b) && ApplyOk(w, a, i, task)
    ensures ApplyOk(w, b, i, task)
  {
    DecidedStays(a, b, i, Approve);
  }

  lemma AppliesStay(w: World, a: Db, b: Db, applies: map<string, ApplyTask>)
    requires Extends(a, b) && AppliesOk(w, a, applies)
    ensures AppliesOk(w, b, applies)
  {
    forall i | i in applies ensures ApplyOk(w, b, i, applies[i]) {
      ApplyStays(w, a, b, i, applies[i]);
    }
  }

  lemma DeciderStays(a: Db, b: Db, h: Decider)
    requires Extends(a, b) && KeepsProposals(a, b) && DeciderOk(a, h)
    ensures DeciderOk(b, h)
  {
    if h.Won? { DecidedStays(a, b, h.investigation, h.decision); }
  }

  lemma DecidersStay(a: Db, b: Db, deciders: map<nat, Decider>)
    requires Extends(a, b) && KeepsProposals(a, b) && DecidersOk(a, deciders)
    ensures DecidersOk(b, deciders)
  {
    forall d | d in deciders ensures DeciderOk(b, deciders[d]) {
      DeciderStays(a, b, deciders[d]);
    }
  }

  lemma RecordStays(a: Db, b: Db, p: string, record: DecisionRecord)
    requires Extends(a, b) && p in a.proposals && a.proposals[p].verdict.Some? && RecordOk(a, p, record)
    ensures p in b.proposals && RecordOk(b, p, record)
  {
  }

  /** No decision was added. */
  lemma DecisionsStay(a: Db, b: Db, decisions: map<string, DecisionRecord>)
    requires Extends(a, b) && DecisionsOk(a, decisions)
    requires forall p | p in b.proposals && b.proposals[p].verdict.Some? ::
               p in a.proposals && a.proposals[p].verdict.Some?
    ensures DecisionsOk(b, decisions)
  {
    forall p | p in b.proposals && b.proposals[p].verdict.Some? ensures p in decisions && RecordOk(b, p, decisions[p]) {
      RecordStays(a, b, p, decisions[p]);
    }
  }

  lemma HasProposalStays(a: Db, b: Db, i: string)
    requires KeepsProposals(a, b) && HasProposal(a, i)
    ensures HasProposal(b, i)
  {
    var p :| p in a.proposals && a.proposals[p].investigation == i;
    assert p in b.proposals && b.proposals[p].investigation == i;
  }

  /** A start task's own row was not written. */
  lemma StartStays(a: Db, b: Db, i: string, task: StartTask)
    requires StartOk(a, i, task) && KeepsProposals(a, b)
    requires i in a.investigations ==> i in b.investigations && b.investigations[i].status == a.investigations[i].status
    requires forall p | p in b.proposals && b.proposals[p].investigation == i :: p in a.proposals
    ensures StartOk(b, i, task)
  {
    if task.Stored? {
      var p :| p in a.proposals && a.proposals[p].investigation == i
               && a.proposals[p].content.decision == task.decision;
      assert p in b.proposals && b.proposals[p].investigation == i && b.proposals[p].content.decision == task.decision;
    }
  }

  // ---------- a status write ----------

  /** What the new status must satisfy for the row and its proposal. */
  ghost predicate Fits(db: Db, i: string, status: Status) {
    && i in db.investigations
    && (Settled(db.investigations[i].status) ==> Settled(status))
    && status != Queued
    && (status == AwaitingApproval ==> HasProposal(db, i))
    && (status in {Applying, Verifying} ==> Decided(db, i, Approve))
    && forall p | p in db.proposals && db.proposals[p].investigation == i :: FitsProposal(db.proposals[p], status)
  }

  ghost predicate FitsProposal(row: ProposalRow, status: Status) {
    if row.verdict.Some? then Settled(status)
    else
      && status in {Planning, AwaitingApproval, Completed, Failed}
      && (status == AwaitingApproval ==> row.content.decision == Proposed)
      && (status == Completed ==> row.content.decision != Proposed)
  }

  lemma ProposalAfterStatus(w: World, db: Db, i: string, status: Status, p: string)
    requires p in db.proposals && ProposalOk(w, db, p) && Fits(db, i, status)
    ensures ProposalOk(w, SetStatus(db, i, status), p)
  {
    assert db.proposals[p].investigation == i ==> FitsProposal(db.proposals[p], status);
  }

  /** The same status, and no proposal or decision lost. */
  lemma InvestigationStays(a: Db, b: Db, k: string)
    requires k in a.investigations && InvestigationOk(a, k) && Extends(a, b) && KeepsProposals(a, b)
    requires b.investigations[k].status == a.investigations[k].status
    requires b.investigations[k].status == Queued ==> Fresh(b.investigations[k].notes)
    ensures InvestigationOk(b, k)
  {
    if HasProposal(a, k) { HasProposalStays(a, b, k); }
    if Decided(a, k, Approve) { DecidedStays(a, b, k, Approve); }
  }

  lemma InvestigationAfterStatus(db: Db, i: string, status: Status, k: string)
    requires k in db.investigations && InvestigationOk(db, k) && Fits(db, i, status)
    ensures InvestigationOk(SetStatus(db, i, status), k)
  {
    var after := SetStatus(db, i, status);
    assert Extends(db, after) && KeepsProposals(db, after);
    if k != i {
      InvestigationStays(db, after, k);
    } else {
      if HasProposal(db, k) { HasProposalStays(db, after, k); }
      if Decided(db, k, Approve) { DecidedStays(db, after, k, Approve); }
    }
  }

  lemma RowsAfterStatus(w: World, db: Db, i: string, status: Status)
    requires RowsOk(w, db) && Fits(db, i, status)
    ensures RowsOk(w, SetStatus(db, i, status))
  {
    var after := SetStatus(db, i, status);
    forall p | p in after.proposals ensures ProposalOk(w, after, p) {
      ProposalAfterStatus(w, db, i, status, p);
    }
    forall k | k in after.investigations ensures InvestigationOk(after, k) {
      InvestigationAfterStatus(db, i, status, k);
    }
    assert OneProposal(after);
  }

  /** The start tasks after a status write by anyone else, or by one that leaves its task settled. */
  lemma StartsAfterStatus(db: Db, i: string, status: Status, starts: map<string, StartTask>)
    requires StartsOk(db, starts) && Fits(db, i, status)
    ensures StartsOk(SetStatus(db, i, status), starts - {i})
    ensures IsSettled(db, i) ==> StartsOk(SetStatus(db, i, status), starts)
  {
    var after := SetStatus(db, i, status);
    forall k | k in starts && (k != i || IsSettled(db, i)) ensures StartOk(after, k, starts[k]) {
      assert StartOk(db, k, starts[k]);
      if k != i { StartStays(db, after, k, starts[k]); }
    }
  }

  /** The parties that survive a status write unchanged. */
  lemma StatusWrite(w: World, s: State, i: string, status: Status)
    requires RowsOk(w, s.db) && AppliesOk(w, s.db, s.applies) && DecidersOk(s.db, s.deciders)
    requires PostsOk(w, s.db, s.posts) && DecisionsOk(s.db, s.decisions) && StartsOk(s.db, s.starts)
    requires Fits(s.db, i, status)
    ensures var db := SetStatus(s.db, i, status);
            && RowsOk(w, db) && AppliesOk(w, db, s.applies) && DecidersOk(db, s.deciders)
            && PostsOk(w, db, s.posts) && DecisionsOk(db, s.decisions) && StartsOk(db, s.starts - {i})
            && (IsSettled(s.db, i) ==> StartsOk(db, s.starts))
  {
    hide RowsOk, StartsOk, AppliesOk, DecidersOk, PostsOk, DecisionsOk;
    var db := SetStatus(s.db, i, status);
    StatusWriteExtends(s.db, i, status);
    RowsAfterStatus(w, s.db, i, status);
    AppliesStay(w, s.db, db, s.applies);
    DecidersStay(s.db, db, s.deciders);
    PostsStay(w, s.db, db, s.posts);
    DecisionsStay(s.db, db, s.decisions);
    StartsAfterStatus(s.db, i, status, s.starts);
  }

  /** Whoever writes after a decision may write any of the statuses that follow one. */
  lemma DecidedFits(db: Db, i: string, outcome: Outcome, status: Status)
    requires OneProposal(db) && i in db.investigations && Decided(db, i, outcome)
    requires Settled(status) && status != AwaitingApproval && (status in {Applying, Verifying} ==> outcome == Approve)
    ensures Fits(db, i, status)
  {
    var p :| DecidedAs(db, i, p, outcome);
    forall q | q in db.proposals && db.proposals[q].investigation == i ensures FitsProposal(db.proposals[q], status) {
      assert q == p;
    }
  }

  lemma FailedFits(w: World, db: Db, i: string)
    requires RowsOk(w, db) && i in db.investigations
    ensures Fits(db, i, Failed)
  {
  }

  /** Before planning there is no proposal to fit. */
  lemma EarlyFits(w: World, db: Db, i: string, status: Status)
    requires RowsOk(w, db) && i in db.investigations && db.investigations[i].status in {Queued, Investigating}
    requires status in {Investigating, Planning}
    ensures Fits(db, i, status) && !HasProposal(db, i)
  {
    forall p | p in db.proposals ensures db.proposals[p].investigation != i {
      assert ProposalOk(w, db, p);
    }
  }

  lemma AnnouncedFits(w: World, db: Db, i: string, decision: Decision)
    requires RowsOk(w, db) && StartOk(db, i, Stored(decision))
    ensures Fits(db, i, if decision == Proposed then AwaitingApproval else Completed)
  {
    var p :| p in db.proposals && db.proposals[p].investigation == i && db.proposals[p].content.decision == decision;
    var status := if decision == Proposed then AwaitingApproval else Completed;
    forall q | q in db.proposals && db.proposals[q].investigation == i ensures FitsProposal(db.proposals[q], status) {
      assert q == p && ProposalOk(w, db, q);
    }
  }

  // ---------- a notes write ----------

  lemma RowsAfterNotes(w: World, db: Db, i: string, notes: Notes)
    requires RowsOk(w, db) && i in db.investigations
    requires db.investigations[i].status == Queued ==> Fresh(notes)
    ensures RowsOk(w, SetNotes(db, i, notes))
  {
    var after := SetNotes(db, i, notes);
    NotesWriteExtends(db, i, notes);
    forall p | p in after.proposals ensures ProposalOk(w, after, p) {
      assert ProposalOk(w, db, p);
    }
    forall k | k in after.investigations ensures InvestigationOk(after, k) {
      InvestigationStays(db, after, k);
    }
    assert OneProposal(after);
  }

  lemma NotesWrite(w: World, s: State, i: string, notes: Notes)
    requires TablesInv(w, s) && i in s.db.investigations
    requires s.db.investigations[i].status == Queued ==> Fresh(notes)
    ensures TablesInv(w, s.(db := SetNotes(s.db, i, notes)))
  {
    hide RowsOk, AppliesOk, DecidersOk, PostsOk, DecisionsOk;
    var db := SetNotes(s.db, i, notes);
    NotesWriteExtends(s.db, i, notes);
    RowsAfterNotes(w, s.db, i, notes);
    AppliesStay(w, s.db, db, s.applies);
    DecidersStay(s.db, db, s.deciders);
    PostsStay(w, s.db, db, s.posts);
    DecisionsStay(s.db, db, s.decisions);
    forall k | k in s.starts ensures StartOk(db, k, s.starts[k]) {
      StartStays(s.db, db, k, s.starts[k]);
    }
  }

  // ---------- creating a proposal ----------

  lemma StoredRowFits(w: World, i: string, inv: InvestigationRow, p: string, choice: Choice, now: real, createdAt: real)
    requires inv.status == Planning
    ensures RowFits(w, p, StoredRow(w, i, inv.device, p, Propose(w, choice), now, createdAt), inv)
  {
  }

  lemma RowsAfterCreate(w: World, db: Db, i: string, p: string, choice: Choice, now: real, createdAt: real)
    requires RowsOk(w, db) && StartOk(db, i, Planned) && p !in db.proposals
    ensures RowsOk(w, CreateProposal(db, p,
              StoredRow(w, i, db.investigations[i].device, p, Propose(w, choice), now, createdAt)))
  {
    var row := StoredRow(w, i, db.investigations[i].device, p, Propose(w, choice), now, createdAt);
    assert row.investigation == i;
    StoredRowFits(w, i, db.investigations[i], p, choice, now, createdAt);
    hide StoredRow, Propose, RowFits;
    var after := CreateProposal(db, p, row);
    forall q | q in after.proposals ensures ProposalOk(w, after, q) {
      if q != p { assert ProposalOk(w, db, q); }
    }
    NewProposalExtends(db, p, row);
    forall k | k in after.investigations ensures InvestigationOk(after, k) {
      InvestigationStays(db, after, k);
    }
    assert OneProposal(after);
  }

  lemma StartsAfterCreate(db: Db, i: string, p: string, row: ProposalRow, starts: map<string, StartTask>)
    requires StartsOk(db, starts) && p !in db.proposals && row.investigation == i && HasStatus(db, i, Planning)
    ensures StartsOk(CreateProposal(db, p, row), starts[i := Stored(row.content.decision)])
  {
    var after := CreateProposal(db, p, row);
    var starts' := starts[i := Stored(row.content.decision)];
    forall k | k in starts' ensures StartOk(after, k, starts'[k]) {
      if k == i {
        assert p in after.proposals && after.proposals[p].investigation == i;
      } else {
        assert StartOk(db, k, starts[k]);
        StartStays(db, after, k, starts[k]);
      }
    }
  }

  // ---------- looking up and moving one task ----------

  lemma StartTaskOk(db: Db, starts: map<string, StartTask>, i: string)
    requires StartsOk(db, starts) && i in starts
    ensures StartOk(db, i, starts[i])
  {
  }

  lemma StartMoved(db: Db, starts: map<string, StartTask>, i: string, task: StartTask)
    requires StartsOk(db, starts - {i}) && StartOk(db, i, task)
    ensures StartsOk(db, starts[i := task])
  {
    var moved := starts[i := task];
    forall k | k in moved ensures StartOk(db, k, moved[k]) {
      if k != i { assert k in starts - {i}; }
    }
  }

  lemma StartRemoved(db: Db, starts: map<string, StartTask>, i: string)
    requires StartsOk(db, starts)
    ensures StartsOk(db, starts - {i})
  {
  }

  lemma ApplyTaskOk(w: World, db: Db, applies: map<string, ApplyTask>, i: string)
    requires AppliesOk(w, db, applies) && i in applies
    ensures ApplyOk(w, db, i, applies[i])
  {
  }

  lemma ApplyMoved(w: World, db: Db, applies: map<string, ApplyTask>, i: string, task: ApplyTask)
    requires AppliesOk(w, db, applies) && ApplyOk(w, db, i, task)
    ensures AppliesOk(w, db, applies[i := task])
  {
    var moved := applies[i := task];
    forall k | k in moved ensures ApplyOk(w, db, k, moved[k]) {
      if k != i { assert k in applies; }
    }
  }

  lemma ApplyRemoved(w: World, db: Db, applies: map<string, ApplyTask>, i: string)
    requires AppliesOk(w, db, applies)
    ensures AppliesOk(w, db, applies - {i})
  {
  }

  lemma DeciderAt(db: Db, deciders: map<nat, Decider>, d: nat)
    requires DecidersOk(db, deciders) && d in deciders
    ensures DeciderOk(db, deciders[d])
  {
  }

  lemma DeciderMoved(db: Db, deciders: map<nat, Decider>, d: nat, h: Decider)
    requires DecidersOk(db, deciders) && DeciderOk(db, h)
    ensures DecidersOk(db, deciders[d := h])
  {
    var moved := deciders[d := h];
    forall k | k in moved ensures DeciderOk(db, moved[k]) {
      if k != d { assert k in deciders; }
    }
  }

  lemma DeciderRemoved(db: Db, deciders: map<nat, Decider>, d: nat)
    requires DecidersOk(db, deciders)
    ensures DecidersOk(db, deciders - {d})
  {
  }

  // ---------- diagnosis and planning ----------

  lemma StoredRowMoves(w: World, s: State, i: string, p: string, row: ProposalRow)
    requires TablesInv(w, s) && p !in s.db.proposals && row.investigation == i && row.verdict.None?
    requires HasStatus(s.db, i, Planning)
    ensures var db := CreateProposal(s.db, p, row);
            && StartsOk(db, s.starts[i := Stored(row.content.decision)]) && AppliesOk(w, db, s.applies)
            && DecidersOk(db, s.deciders) && PostsOk(w, db, s.posts) && DecisionsOk(db, s.decisions)
  {
    hide RowsOk, StartsOk, AppliesOk, DecidersOk, PostsOk, DecisionsOk;
    var db := CreateProposal(s.db, p, row);
    assert Extends(s.db, db) && KeepsProposals(s.db, db);
    StartsAfterCreate(s.db, i, p, row, s.starts);
    AppliesStay(w, s.db, db, s.applies);
    DecidersStay(s.db, db, s.deciders);
    PostsStay(w, s.db, db, s.posts);
    DecisionsStay(s.db, db, s.decisions);
  }

  lemma StorePreserves(w: World, s: State, i: string, p: string, choice: Choice, now: real, createdAt: real, s': State)
    requires TablesInv(w, s) && StoreStep(w, s, i, p, choice, now, createdAt, s')
    ensures TablesInv(w, s')
  {
    hide RowsOk, StartsOk, AppliesOk, DecidersOk, PostsOk, DecisionsOk;
    StartTaskOk(s.db, s.starts, i);
    if p in s.db.proposals {
      StartRemoved(s.db, s.starts, i);
      StartMoved(s.db, s.starts, i, StartFailing);
    } else {
      RowsAfterCreate(w, s.db, i, p, choice, now, createdAt);
      StoredRowMoves(w, s, i, p, s'.db.proposals[p]);
    }
  }

  lemma PlannedOk(db: Db, i: string)
    requires i in db.investigations && !HasProposal(db, i)
    ensures StartOk(SetStatus(db, i, Planning), i, Planned)
  {
  }

  lemma StartWrites(w: World, s: State, i: string, e: StartEvent, s': State)
    requires TablesInv(w, s) && StartStep(w, s, i, e, s')
    requires e.Claim? || e.Plan? || e.Announce? || e.MarkFailed?
    ensures TablesInv(w, s')
  {
    hide RowsOk, StartsOk, AppliesOk, DecidersOk, PostsOk, DecisionsOk;
    StartTaskOk(s.db, s.starts, i);
    StartRemoved(s.db, s.starts, i);
    match e
    case Claim =>
      if Claimable(s.db, i) {
        EarlyFits(w, s.db, i, Investigating);
        StatusWrite(w, s, i, Investigating);
        StartMoved(s'.db, s.starts, i, Diagnosing);
      }
    case Plan =>
      EarlyFits(w, s.db, i, Planning);
      StatusWrite(w, s, i, Planning);
      PlannedOk(s.db, i);
      StartMoved(s'.db, s.starts, i, Planned);
    case Announce =>
      var decision := s.starts[i].decision;
      AnnouncedFits(w, s.db, i, decision);
      StatusWrite(w, s, i, if decision == Proposed then AwaitingApproval else Completed);
      StartMoved(s'.db, s.starts, i, Announced);
    case MarkFailed =>
      if i in s.db.investigations {
        FailedFits(w, s.db, i);
        StatusWrite(w, s, i, Failed);
      }
  }

  lemma NotesAllowed(w: World, s: State, i: string, e: StartEvent, s': State)
    requires TablesInv(w, s) && e.WriteNotes? && StartStep(w, s, i, e, s')
    ensures s.db.investigations[i].status == Queued ==> Fresh(e.notes)
  {
    hide StartsOk, AppliesOk, DecidersOk, PostsOk, DecisionsOk;
    StartTaskOk(s.db, s.starts, i);
    assert InvestigationOk(s.db, i);
  }

  lemma StartPreserves(w: World, s: State, i: string, e: StartEvent, s': State)
    requires TablesInv(w, s) && StartStep(w, s, i, e, s')
    ensures TablesInv(w, s')
  {
    hide RowsOk, StartsOk, AppliesOk, DecidersOk, PostsOk, DecisionsOk;
    if e.StoreProposal? {
      StorePreserves(w, s, i, e.p, e.choice, e.now, e.createdAt, s');
    } else if e.WriteNotes? {
      NotesAllowed(w, s, i, e, s');
      NotesWrite(w, s, i, e.notes);
    } else if e.Find? || e.Return? || e.Raise? {
      StartRemoved(s.db, s.starts, i);
      StartMoved(s.db, s.starts, i, if e.Find? then Found else StartFailing);
    } else {
      StartWrites(w, s, i, e, s');
    }
  }

  // ---------- applying ----------

  /** An apply task exists only for a decided investigation, so it may write any status that follows. */
  lemma ApplyStatus(w: World, s: State, i: string, status: Status)
    requires TablesInv(w, s) && i in s.applies && Settled(status) && status != AwaitingApproval
    ensures TablesInv(w, s.(db := SetStatus(s.db, i, status)))
    ensures TablesInv(w, s.(db := SetStatus(s.db, i, status), applies := s.applies - {i}))
  {
    OneProposalIn(w, s.db);
    hide RowsOk, StartsOk, AppliesOk, DecidersOk, PostsOk, DecisionsOk, OneProposal;
    ApplyTaskOk(w, s.db, s.applies, i);
    DecidedFits(s.db, i, Approve, status);
    StatusWrite(w, s, i, status);
    ApplyRemoved(w, SetStatus(s.db, i, status), s.applies, i);
  }

  lemma ApplyAdvances(w: World, s: State, i: string, e: ApplyEvent, s': State)
    requires TablesInv(w, s) && ApplyStep(w, s, i, e, s')
    requires e.ReadStatus? || e.Load? || e.AuthorizeRepair? || e.Confirm? || e.Leave? || e.RaiseError?
    ensures TablesInv(w, s')
  {
    hide RowsOk, StartsOk, AppliesOk, DecidersOk, PostsOk, DecisionsOk;
    ApplyTaskOk(w, s.db, s.applies, i);
    ApplyRemoved(w, s.db, s.applies, i);
    if i in s'.applies {
      if s'.applies[i].Loaded? { assert DecidedAs(s.db, i, e.current.value, Approve); }
      ApplyMoved(w, s.db, s.applies, i, s'.applies[i]);
    }
  }

  lemma PostPreserves(w: World, s: State, i: string, e: ApplyEvent, s': State)
    requires TablesInv(w, s) && e.PostRepair? && ApplyStep(w, s, i, e, s')
    ensures TablesInv(w, s')
  {
    hide RowsOk, StartsOk, AppliesOk, DecidersOk, DecisionsOk;
    ApplyTaskOk(w, s.db, s.applies, i);
    ApplyMoved(w, s.db, s.applies, i, Posted);
    forall post | post in s'.posts ensures PostOk(w, s.db, post) {
    }
  }

  lemma ApplyPreserves(w: World, s: State, i: string, e: ApplyEvent, s': State)
    requires TablesInv(w, s) && ApplyStep(w, s, i, e, s')
    ensures TablesInv(w, s')
  {
    hide TablesInv;
    match e
    case MarkVerifying(stored) => VerifyingPreserves(w, s, i, stored, s');
    case Finish => ApplyStatus(w, s, i, if s.applies[i] == Confirmed(Some(true)) then Resolved else Unresolved);
    case MarkApplyFailed => ApplyStatus(w, s, i, Failed);
    case Describe(notes) => DescribeAllowed(w, s, i); NotesWrite(w, s, i, notes);
    case PostRepair => PostPreserves(w, s, i, e, s');
    case _ => ApplyAdvances(w, s, i, e, s');
  }

  lemma VerifyingPreserves(w: World, s: State, i: string, stored: bool, s': State)
    requires TablesInv(w, s) && ApplyStep(w, s, i, MarkVerifying(stored), s')
    ensures TablesInv(w, s')
  {
    VerifyingParts(w, s, i, stored, s');
    hide TablesInv, ApplyStep, SetStatus;
    var written := if stored then s.(db := SetStatus(s.db, i, Verifying)) else s;
    if stored { ApplyStatus(w, s, i, Verifying); }
    ApplyConfirming(w, written, i);
  }

  lemma VerifyingParts(w: World, s: State, i: string, stored: bool, s': State)
    requires ApplyStep(w, s, i, MarkVerifying(stored), s')
    ensures i in s.applies
    ensures var written := if stored then s.(db := SetStatus(s.db, i, Verifying)) else s;
            s' == written.(applies := s.applies[i := Confirming])
  {
    hide SetStatus;
  }

  lemma ApplyConfirming(w: World, s: State, i: string)
    requires TablesInv(w, s) && i in s.applies
    ensures TablesInv(w, s.(applies := s.applies[i := Confirming]))
  {
    hide RowsOk, StartsOk, AppliesOk, DecidersOk, PostsOk, DecisionsOk;
    ApplyTaskOk(w, s.db, s.applies, i);
    ApplyMoved(w, s.db, s.applies, i, Confirming);
  }

  lemma DescribeAllowed(w: World, s: State, i: string)
    requires TablesInv(w, s) && i in s.applies
    ensures IsSettled(s.db, i)
  {
    ApplyTaskOk(w, s.db, s.applies, i);
  }

  // ---------- deciding ----------

  lemma RowsAfterDecision(w: World, db: Db, p: string, verdict: Verdict)
    requires RowsOk(w, db) && Undecided(db, p) && IsSettled(db, db.proposals[p].investigation)
    ensures RowsOk(w, RecordDecision(db, p, verdict))
  {
    var after := RecordDecision(db, p, verdict);
    InvestigationsAfterDecision(w, db, p, verdict);
    OneProposalIn(w, db);
    OneProposalAfterDecision(db, p, verdict);
    hide InvestigationOk, OneProposal, ProposalOk;
    forall q | q in after.proposals ensures ProposalOk(w, after, q) {
      ProposalAt(w, db, q);
      ProposalDecided(w, db, p, verdict, q);
    }
  }

  lemma OneProposalAfterDecision(db: Db, p: string, verdict: Verdict)
    requires OneProposal(db)
    ensures OneProposal(RecordDecision(db, p, verdict))
  {
  }

  lemma InvestigationsAfterDecision(w: World, db: Db, p: string, verdict: Verdict)
    requires RowsOk(w, db) && Undecided(db, p)
    ensures var after := RecordDecision(db, p, verdict);
            forall k | k in after.investigations :: InvestigationOk(after, k)
  {
    var after := RecordDecision(db, p, verdict);
    DecisionExtends(db, p, verdict);
    hide ProposalOk, OneProposal, Extends, KeepsProposals;
    forall k | k in after.investigations ensures InvestigationOk(after, k) {
      InvestigationFresh(db, k);
      InvestigationStays(db, after, k);
    }
  }

  lemma InvestigationFresh(db: Db, k: string)
    requires k in db.investigations && InvestigationOk(db, k)
    ensures db.investigations[k].status == Queued ==> Fresh(db.investigations[k].notes)
  {
  }

  lemma ProposalDecided(w: World, db: Db, p: string, verdict: Verdict, q: string)
    requires Undecided(db, p) && IsSettled(db, db.proposals[p].investigation)
    requires q in db.proposals && ProposalOk(w, db, q)
    ensures ProposalOk(w, RecordDecision(db, p, verdict), q)
  {
  }

  lemma DecisionsAfterDecision(w: World, db: Db, decisions: map<string, DecisionRecord>, p: string,
                               record: DecisionRecord)
    requires RowsOk(w, db) && DecisionsOk(db, decisions) && Undecided(db, p)
    requires RecordOk(RecordDecision(db, p, record.verdict), p, record)
    ensures DecisionsOk(RecordDecision(db, p, record.verdict), decisions[p := record])
  {
    var after := RecordDecision(db, p, record.verdict);
    forall q | q in after.proposals && after.proposals[q].verdict.Some?
      ensures q in decisions[p := record] && RecordOk(after, q, decisions[p := record][q])
    {
      if q != p { RecordStays(db, after, q, decisions[q]); }
    }
  }

  /** What a Judged decider knows about the row it is about to decide. */
  lemma JudgedRow(w: World, s: State, d: nat)
    requires TablesInv(w, s) && d in s.deciders && s.deciders[d].Judged?
    requires Undecided(s.db, s.deciders[d].request.proposal)
    ensures var h := s.deciders[d];
            && IsSettled(s.db, h.investigation) && h.status == AwaitingApproval
            && Reviewed(s.db, h.investigation, h.request.proposal, h.request, h.checkedAt)
            && s.db.investigations[h.investigation].status in {AwaitingApproval, Failed}
  {
    DeciderAt(s.db, s.deciders, d);
    ProposalAt(w, s.db, s.deciders[d].request.proposal);
  }

  lemma CommitRecords(w: World, s: State, d: nat, verdict: Verdict)
    requires TablesInv(w, s) && d in s.deciders && s.deciders[d].Judged?
    requires Undecided(s.db, s.deciders[d].request.proposal)
    requires verdict.outcome == s.deciders[d].request.decision && s.deciders[d].investigation in s.db.investigations
    ensures var h := s.deciders[d];
            var p := h.request.proposal;
            var db := RecordDecision(s.db, p, verdict);
            var record := DecisionRecord(h.request, h.status, h.checkedAt,
                                         s.db.investigations[h.investigation].status, verdict);
            RowsOk(w, db) && DecisionsOk(db, s.decisions[p := record])
  {
    JudgedRow(w, s, d);
    hide RowsOk, StartsOk, AppliesOk, DecidersOk, PostsOk, DecisionsOk;
    var h := s.deciders[d];
    var p := h.request.proposal;
    RowsAfterDecision(w, s.db, p, verdict);
    DecisionsAfterDecision(w, s.db, s.decisions, p,
      DecisionRecord(h.request, h.status, h.checkedAt, s.db.investigations[h.investigation].status, verdict));
  }

  lemma CommitMovesParties(w: World, s: State, d: nat, verdict: Verdict)
    requires TablesInv(w, s) && d in s.deciders && s.deciders[d].Judged?
    requires Undecided(s.db, s.deciders[d].request.proposal)
    requires verdict.outcome == s.deciders[d].request.decision
    ensures var h := s.deciders[d];
            var db := RecordDecision(s.db, h.request.proposal, verdict);
            && StartsOk(db, s.starts) && AppliesOk(w, db, s.applies) && PostsOk(w, db, s.posts)
            && DecidersOk(db, s.deciders[d := Won(h.investigation, h.request.decision)])
  {
    JudgedRow(w, s, d);
    hide RowsOk, StartsOk, AppliesOk, DecidersOk, PostsOk, DecisionsOk;
    var h := s.deciders[d];
    var p := h.request.proposal;
    var db := RecordDecision(s.db, p, verdict);
    DecisionExtends(s.db, p, verdict);
    hide Extends, KeepsProposals, Reviewed;
    AppliesStay(w, s.db, db, s.applies);
    DecidersStay(s.db, db, s.deciders);
    assert DecidedAs(db, h.investigation, p, h.request.decision);
    DeciderMoved(db, s.deciders, d, Won(h.investigation, h.request.decision));
    PostsStay(w, s.db, db, s.posts);
    StartsAfterDecision(s.db, p, verdict, s.starts);
  }

  lemma CommitPreserves(w: World, s: State, d: nat, now: real, s': State)
    requires TablesInv(w, s) && CommitStep(s, d, now, s')
    ensures TablesInv(w, s')
  {
    hide RowsOk, StartsOk, AppliesOk, DecidersOk, PostsOk, DecisionsOk;
    var h := s.deciders[d];
    DeciderRemoved(s.db, s.deciders, d);
    if Undecided(s.db, h.request.proposal) {
      var verdict := Verdict(now, h.operator, h.request.decision);
      CommitRecords(w, s, d, verdict);
      CommitMovesParties(w, s, d, verdict);
    }
  }

  lemma OneProposalIn(w: World, db: Db)
    requires RowsOk(w, db)
    ensures OneProposal(db)
  {
  }

  lemma ProposalAt(w: World, db: Db, p: string)
    requires RowsOk(w, db) && p in db.proposals
    ensures ProposalOk(w, db, p)
  {
  }

  lemma StartsAfterDecision(db: Db, p: string, verdict: Verdict, starts: map<string, StartTask>)
    requires StartsOk(db, starts)
    ensures StartsOk(RecordDecision(db, p, verdict), starts)
  {
    var after := RecordDecision(db, p, verdict);
    forall k | k in starts ensures StartOk(after, k, starts[k]) {
      StartStays(db, after, k, starts[k]);
    }
  }

  /** What concluding does, part by part. */
  lemma ConcludeParts(s: State, d: nat, s': State)
    requires ConcludeStep(s, d, s')
    ensures var h := s.deciders[d];
            && s' == s.(db := s'.db, applies := s'.applies, deciders := s.deciders - {d})
            && s'.db == SetStatus(s.db, h.investigation, if h.decision == Approve then Applying else Rejected)
            && s'.applies == (if h.decision == Approve && h.investigation !in s.applies
                              then s.applies[h.investigation := Scheduled] else s.applies)
  {
    hide SetStatus;
  }

  lemma ConcludePreserves(w: World, s: State, d: nat, s': State)
    requires TablesInv(w, s) && ConcludeStep(s, d, s')
    ensures TablesInv(w, s')
  {
    OneProposalIn(w, s.db);
    ConcludeParts(s, d, s');
    DeciderAt(s.db, s.deciders, d);
    hide RowsOk, StartsOk, AppliesOk, DecidersOk, PostsOk, DecisionsOk, OneProposal, Extends, KeepsProposals, Fits;
    hide SetStatus, ConcludeStep;
    var h := s.deciders[d];
    var status := if h.decision == Approve then Applying else Rejected;
    DecidedFits(s.db, h.investigation, h.decision, status);
    StatusWrite(w, s, h.investigation, status);
    StatusWriteExtends(s.db, h.investigation, status);
    DecidedStays(s.db, s'.db, h.investigation, h.decision);
    DeciderRemoved(s'.db, s.deciders, d);
    if h.decision == Approve { ApplyMoved(w, s'.db, s.applies, h.investigation, Scheduled); }
  }

  /** A decider goes on only with what the judgement established. */
  lemma CheckParts(w: World, s: State, d: nat, current: Option<string>, now: real, s': State)
    requires CheckStep(w, s, d, current, now, s') && DeciderOk(s.db, s.deciders[d])
    ensures s' == s.(deciders := s'.deciders, accepted := s'.accepted)
    ensures s'.deciders == s.deciders - {d}
            || (d in s'.deciders && s'.deciders == s.deciders[d := s'.deciders[d]] && DeciderOk(s.db, s'.deciders[d]))
  {
    var h := s.deciders[d];
    if d in s'.deciders && s'.deciders[d].Won? {
      assert DecidedAs(s.db, h.investigation, current.value, h.request.decision);
    }
    hide HashMatches, CurrentIs;
  }

  lemma CheckPreserves(w: World, s: State, d: nat, current: Option<string>, now: real, s': State)
    requires TablesInv(w, s) && CheckStep(w, s, d, current, now, s')
    ensures TablesInv(w, s')
  {
    DeciderAt(s.db, s.deciders, d);
    CheckParts(w, s, d, current, now, s');
    hide RowsOk, StartsOk, AppliesOk, DecidersOk, PostsOk, DecisionsOk, CheckStep, DeciderOk;
    DeciderRemoved(s.db, s.deciders, d);
    if d in s'.deciders { DeciderMoved(s.db, s.deciders, d, s'.deciders[d]); }
  }

  lemma DecidePreserves(w: World, s: State, d: nat, e: DecideEvent, s': State)
    requires TablesInv(w, s) && DecideStep(w, s, d, e, s')
    ensures TablesInv(w, s')
  {
    hide RowsOk, StartsOk, AppliesOk, DecidersOk, PostsOk, DecisionsOk, CheckStep, CommitStep, ConcludeStep;
    match e
    case Commit(now) => CommitPreserves(w, s, d, now, s');
    case Conclude => ConcludePreserves(w, s, d, s');
    case Check(current, now) => CheckPreserves(w, s, d, current, now, s');
    case Abandon => DeciderRemoved(s.db, s.deciders, d);
    case BeginDecision(_, _, _) => DeciderMoved(s.db, s.deciders, d, s'.deciders[d]);
  }

  // ---------- dispatching ----------

  /** More posts, same dispatch state. */
  lemma SendsKeepPosts(w: World, s: State, s': State)
    requires SendsInv(w, s) && s.posts <= s'.posts
    requires s' == s.(db := s'.db, posts := s'.posts, applies := s'.applies)
    ensures SendsInv(w, s')
  {
    forall k | 0 <= k < |s.queued| ensures DispatchOk(w, s'.jobs, s'.posts, s'.queued[k]) {
      assert DispatchOk(w, s.jobs, s.posts, s.queued[k]);
    }
    forall n | n in s.senders ensures SenderOk(w, s'.jobs, s'.posts, s'.senders[n]) {
      assert SenderOk(w, s.jobs, s.posts, s.senders[n]);
    }
  }

  /** The job table grows or a job moves on; what identifies each job stays. */
  ghost predicate KeepsSpecs(a: JobRows, b: JobRows) {
    forall j | j in a :: j in b && b[j].spec == a[j].spec
  }

  lemma ServedStays(w: World, a: JobRows, b: JobRows, senders: map<nat, Sender>, posts: set<Post>,
                    queued: seq<Dispatch>, answers: seq<Answer>)
    requires KeepsSpecs(a, b)
    requires SendersOk(w, a, posts, senders) && QueuedOk(w, a, posts, queued) && AnswersOk(a, answers)
    ensures SendersOk(w, b, posts, senders) && QueuedOk(w, b, posts, queued) && AnswersOk(b, answers)
  {
    forall n | n in senders ensures SenderOk(w, b, posts, senders[n]) {
      assert SenderOk(w, a, posts, senders[n]);
    }
    forall k | 0 <= k < |queued| ensures DispatchOk(w, b, posts, queued[k]) {
      assert DispatchOk(w, a, posts, queued[k]);
    }
  }

  /** The inserted job is new, so no sender and no queue entry has it. */
  lemma FreshJob(w: World, s: State, job: string)
    requires SendersOk(w, s.jobs, s.posts, s.senders) && QueuedOk(w, s.jobs, s.posts, s.queued) && job !in s.jobs
    ensures NotQueued(s.queued, job)
    ensures forall n | n in s.senders && s.senders[n].Inserted? :: s.senders[n].job != job
  {
    forall k | 0 <= k < |s.queued| ensures s.queued[k].job != job {
      assert DispatchOk(w, s.jobs, s.posts, s.queued[k]);
    }
    forall n | n in s.senders && s.senders[n].Inserted? ensures s.senders[n].job != job {
      assert SenderOk(w, s.jobs, s.posts, s.senders[n]);
    }
  }

  lemma InsertedSender(w: World, s: State, n: nat, job: string, jobs: JobRows)
    requires SendersOk(w, jobs, s.posts, s.senders) && SendersFresh(s.senders, s.queued)
    requires n in s.senders && s.senders[n].Checked? && NotQueued(s.queued, job)
    requires forall m | m in s.senders && s.senders[m].Inserted? :: s.senders[m].job != job
    requires Serves(jobs, job, s.senders[n].request)
    ensures var h := s.senders[n];
            var senders := s.senders[n := Inserted(h.request, h.origin, job)];
            SendersOk(w, jobs, s.posts, senders) && SendersFresh(senders, s.queued)
  {
  }

  lemma InsertKeepsKeys(w: World, s: State, n: nat, e: SendEvent, s': State)
    requires KeysUnique(s.jobs) && e.Insert? && SendStep(w, s, n, e, s')
    ensures KeysUnique(s'.jobs)
  {
  }

  lemma InsertEffect(w: World, s: State, n: nat, e: SendEvent, s': State)
    requires e.Insert? && SendStep(w, s, n, e, s')
    ensures n in s.senders && s.senders[n].Checked?
    ensures var h := s.senders[n];
            || s' == s.(senders := s.senders - {n})
            || (&& s' == s.(jobs := s'.jobs, senders := s.senders[n := Inserted(h.request, h.origin, e.job)])
                && e.job !in s.jobs && KeepsSpecs(s.jobs, s'.jobs) && Serves(s'.jobs, e.job, h.request))
  {
  }

  lemma SenderLeaves(w: World, s: State, n: nat)
    requires SendsInv(w, s)
    ensures SendsInv(w, s.(senders := s.senders - {n}))
  {
    hide KeysUnique, QueuedOk, QueuedOnce, AnswersOk, SenderOk, NotQueued;
  }

  lemma InsertPreserves(w: World, s: State, n: nat, e: SendEvent, s': State)
    requires SendsInv(w, s) && e.Insert? && SendStep(w, s, n, e, s')
    ensures SendsInv(w, s')
  {
    InsertKeepsKeys(w, s, n, e, s');
    InsertEffect(w, s, n, e, s');
    SenderLeaves(w, s, n);
    hide SendStep, SendersOk, SendersFresh, QueuedOk, QueuedOnce, AnswersOk, KeysUnique;
    if s' != s.(senders := s.senders - {n}) {
      ServedStays(w, s.jobs, s'.jobs, s.senders, s.posts, s.queued, s.answers);
      FreshJob(w, s, e.job);
      InsertedSender(w, s, n, e.job, s'.jobs);
    }
  }

  lemma PutPreserves(w: World, s: State, n: nat, e: SendEvent, s': State)
    requires SendsInv(w, s) && e.Put? && SendStep(w, s, n, e, s')
    ensures SendsInv(w, s')
  {
    var h := s.senders[n];
    assert SenderOk(w, s.jobs, s.posts, h);
    assert DispatchOk(w, s.jobs, s.posts, Dispatch(h.job, h.request, h.origin));
    assert QueuedOk(w, s'.jobs, s'.posts, s'.queued);
    assert AnswersOk(s'.jobs, s'.answers);
    assert SendersFresh(s'.senders, s'.queued) by {
      forall m | m in s'.senders && s'.senders[m].Inserted? ensures NotQueued(s'.queued, s'.senders[m].job) {
        assert m != n && s'.senders[m] == s.senders[m];
        assert NotQueued(s.queued, s.senders[m].job);
      }
    }
  }

  lemma LookupPreserves(w: World, s: State, n: nat, e: SendEvent, s': State)
    requires SendsInv(w, s) && e.Lookup? && SendStep(w, s, n, e, s')
    ensures SendsInv(w, s')
  {
    if n in s'.senders {
      assert SenderOk(w, s.jobs, s.posts, s'.senders[n]);
    }
  }

  lemma SendPreserves(w: World, s: State, n: nat, e: SendEvent, s': State)
    requires SendsInv(w, s) && SendStep(w, s, n, e, s')
    ensures SendsInv(w, s')
  {
    match e
    case Lookup(_, _) => LookupPreserves(w, s, n, e, s');
    case Insert(_, _) => InsertPreserves(w, s, n, e, s');
    case Put => PutPreserves(w, s, n, e, s');
    case Drop =>
  }

  lemma JobsMove(w: World, s: State, s': State)
    requires SendsInv(w, s) && KeepsSpecs(s.jobs, s'.jobs) && s'.jobs.Keys == s.jobs.Keys
    requires s' == s.(jobs := s'.jobs, phase := s'.phase)
    ensures SendsInv(w, s')
  {
    ServedStays(w, s.jobs, s'.jobs, s.senders, s.posts, s.queued, s.answers);
  }

  // ---------- creation, crash and recovery ----------

  lemma CreatePreserves(w: World, s: State, e: Event, s': State)
    requires TablesInv(w, s) && e.Create? && Step(w, s, e, s')
    ensures TablesInv(w, s')
  {
    hide RowsOk, StartsOk, AppliesOk, DecidersOk, PostsOk, DecisionsOk;
    if s'.db != s.db {
      NewInvestigationExtends(s.db, e.i, e.device, e.problem, e.operator, e.requestId);
      RowsAfterInvestigation(w, s.db, e.i, e.device, e.problem, e.operator, e.requestId);
      AppliesStay(w, s.db, s'.db, s.applies);
      DecidersStay(s.db, s'.db, s.deciders);
      PostsStay(w, s.db, s'.db, s.posts);
      DecisionsStay(s.db, s'.db, s.decisions);
      StartsAfterInvestigation(s.db, s'.db, e.i, s.starts);
      StartRemoved(s'.db, s.starts, e.i);
      if e.i !in s.starts { StartMoved(s'.db, s.starts, e.i, Entered); }
    }
  }

  lemma StartsAfterInvestigation(a: Db, b: Db, i: string, starts: map<string, StartTask>)
    requires StartsOk(a, starts) && b.proposals == a.proposals
    requires i !in a.investigations && b.investigations.Keys == a.investigations.Keys + {i}
    requires forall k | k in a.investigations :: b.investigations[k] == a.investigations[k]
    ensures StartsOk(b, starts)
  {
    forall k | k in starts ensures StartOk(b, k, starts[k]) {
      StartTaskOk(a, starts, k);
      StartStays(a, b, k, starts[k]);
    }
  }

  lemma RowsAfterInvestigation(w: World, db: Db, i: string, device: string, problem: string, operator: string,
                               requestId: string)
    requires RowsOk(w, db)
    ensures RowsOk(w, CreateInvestigation(db, i, device, problem, operator, requestId))
  {
    var after := CreateInvestigation(db, i, device, problem, operator, requestId);
    NewInvestigationExtends(db, i, device, problem, operator, requestId);
    forall p | p in after.proposals ensures ProposalOk(w, after, p) {
      assert ProposalOk(w, db, p);
    }
    forall k | k in after.investigations ensures InvestigationOk(after, k) {
      if k in db.investigations { InvestigationStays(db, after, k); }
    }
    assert OneProposal(after);
  }

  lemma RecoveredKeys(a: Db, b: Db, work: set<(string, Kind)>)
    requires Recovered(a, b, work)
    ensures b.investigations.Keys == a.investigations.Keys
  {
    hide RowRecovered;
  }

  lemma RecoveredRow(a: Db, b: Db, work: set<(string, Kind)>, i: string) returns (p: Option<string>)
    requires Recovered(a, b, work) && i in a.investigations
    ensures CurrentIs(a, i, p)
    ensures b.investigations[i] == RecoverRow(a.investigations[i], LatestOutcome(a, p))
    ensures forall k :: (i, k) in work <==> RecoverKind(a.investigations[i], LatestOutcome(a, p)) == Some(k)
  {
    assert RowRecovered(a, b.investigations, work, i);
    p :| && CurrentIs(a, i, p)
         && b.investigations[i] == RecoverRow(a.investigations[i], LatestOutcome(a, p))
         && forall k :: (i, k) in work <==> RecoverKind(a.investigations[i], LatestOutcome(a, p)) == Some(k);
  }

  lemma RecoverExtends(a: Db, b: Db, work: set<(string, Kind)>)
    requires Recovered(a, b, work)
    ensures Extends(a, b)
  {
    assert forall p | p in a.proposals && a.proposals[p].verdict.Some? ::
             p in b.proposals && b.proposals[p] == a.proposals[p];
    assert forall i | i in a.investigations :: i in b.investigations;
    hide Recovered, RecoverRow, CurrentIs, LatestOutcome;
    forall i | i in a.investigations
      ensures b.investigations[i].device == a.investigations[i].device
              && (Settled(a.investigations[i].status) ==> Settled(b.investigations[i].status))
    {
      var p := RecoveredRow(a, b, work, i);
      RecoveredStatus(a.investigations[i], LatestOutcome(a, p));
    }
  }

  lemma RecoveredProposal(a: Db, b: Db, work: set<(string, Kind)>, q: string)
    requires Recovered(a, b, work) && q in b.proposals
    ensures q in a.proposals && b.proposals[q] == a.proposals[q] && !Discarded(a, q)
  {
  }

  lemma CurrentIsTheOne(db: Db, i: string, p: Option<string>, q: string)
    requires OneProposal(db) && CurrentIs(db, i, p) && q in db.proposals && db.proposals[q].investigation == i
    ensures p == Some(q)
  {
  }

  lemma RecoveredRowFits(w: World, p: string, row: ProposalRow, inv: InvestigationRow, decision: Option<Outcome>)
    requires RowFits(w, p, row, inv)
    requires row.verdict.None? ==> inv.status !in {Investigating, Planning} && decision.None?
    requires row.verdict.Some? ==> decision == Some(row.verdict.value.outcome)
    ensures RowFits(w, p, row, RecoverRow(inv, decision))
  {
  }

  lemma RecoverKeepsProposal(w: World, a: Db, b: Db, work: set<(string, Kind)>, q: string)
    requires RowsOk(w, a) && Recovered(a, b, work) && q in b.proposals
    ensures ProposalOk(w, b, q)
  {
    hide RowsOk, OneProposal, RowFits;
    RecoveredProposal(a, b, work, q);
    ProposalAt(w, a, q);
    OneProposalIn(w, a);
    var i := a.proposals[q].investigation;
    var p := RecoveredRow(a, b, work, i);
    CurrentIsTheOne(a, i, p, q);
    RecoveredRowFits(w, q, a.proposals[q], a.investigations[i], LatestOutcome(a, p));
  }

  lemma RecoveredStatus(row: InvestigationRow, decision: Option<Outcome>)
    ensures var after := RecoverRow(row, decision);
            && after.device == row.device && (Settled(row.status) ==> Settled(after.status))
            && (after.status == AwaitingApproval ==> row.status == AwaitingApproval)
            && (after.status in {Applying, Verifying} ==> decision == Some(Approve))
            && (after.status == Queued ==> after.notes == CLEAN || (row.status == Queued && after.notes == row.notes))
  {
  }

  lemma WaitingKeepsProposal(a: Db, b: Db, work: set<(string, Kind)>, i: string)
    requires Recovered(a, b, work) && i in a.investigations
    requires a.investigations[i].status == AwaitingApproval && HasProposal(a, i)
    ensures HasProposal(b, i)
  {
    var q :| q in a.proposals && a.proposals[q].investigation == i;
    assert q in b.proposals && b.proposals[q].investigation == i;
  }

  lemma ApprovalStays(a: Db, b: Db, work: set<(string, Kind)>, i: string, p: Option<string>)
    requires Recovered(a, b, work) && CurrentIs(a, i, p) && LatestOutcome(a, p) == Some(Approve)
    ensures Decided(b, i, Approve)
  {
    assert DecidedAs(b, i, p.value, Approve);
  }

  lemma RecoverKeepsInvestigation(w: World, a: Db, b: Db, work: set<(string, Kind)>, i: string)
    requires RowsOk(w, a) && Recovered(a, b, work) && i in b.investigations
    ensures InvestigationOk(b, i)
  {
    assert i in a.investigations && InvestigationOk(a, i);
    hide RowsOk, Recovered, RecoverRow, CurrentIs, LatestOutcome, Decided, HasProposal;
    var p := RecoveredRow(a, b, work, i);
    RecoveredStatus(a.investigations[i], LatestOutcome(a, p));
    if b.investigations[i].status == AwaitingApproval { WaitingKeepsProposal(a, b, work, i); }
    if LatestOutcome(a, p) == Some(Approve) { ApprovalStays(a, b, work, i, p); }
  }

  lemma RecoverSchedulesApproved(w: World, a: Db, b: Db, work: set<(string, Kind)>, i: string)
    requires RowsOk(w, a) && Recovered(a, b, work) && (i, Apply) in work
    ensures ApplyOk(w, b, i, Scheduled)
  {
    assert (i, Apply).0 in a.investigations;
    hide RowsOk, CurrentIs, LatestOutcome, Decided;
    var p := RecoveredRow(a, b, work, i);
    ApprovalStays(a, b, work, i, p);
  }

  lemma RecoverKeepsRows(w: World, a: Db, b: Db, work: set<(string, Kind)>)
    requires RowsOk(w, a) && Recovered(a, b, work)
    ensures RowsOk(w, b)
  {
    forall q | q in b.proposals ensures ProposalOk(w, b, q) {
      RecoverKeepsProposal(w, a, b, work, q);
    }
    forall k | k in b.investigations ensures InvestigationOk(b, k) {
      RecoverKeepsInvestigation(w, a, b, work, k);
    }
  }

  lemma RecoverPreserves(w: World, s: State, work: set<(string, Kind)>, s': State)
    requires TablesInv(w, s) && Step(w, s, Recover(work), s')
    requires Idle(s)
    ensures TablesInv(w, s')
  {
    hide RowsOk, PostsOk, DecisionsOk, Recovered;
    RecoverExtends(s.db, s'.db, work);
    RecoverKeepsRows(w, s.db, s'.db, work);
    PostsStay(w, s.db, s'.db, s.posts);
    RecoverAddsNoDecision(s.db, s'.db, work);
    DecisionsStay(s.db, s'.db, s.decisions);
    forall i | i in s'.applies ensures ApplyOk(w, s'.db, i, s'.applies[i]) {
      RecoverSchedulesApproved(w, s.db, s'.db, work, i);
    }
  }

  lemma RecoverAddsNoDecision(a: Db, b: Db, work: set<(string, Kind)>)
    requires Recovered(a, b, work)
    ensures forall p | p in b.proposals && b.proposals[p].verdict.Some? ::
              p in a.proposals && a.proposals[p].verdict.Some?
  {
  }

  // ---------- every event ----------

  /** Nothing the tables' part speaks of was touched. */
  lemma TablesUntouched(w: World, s: State, s': State)
    requires TablesInv(w, s)
    requires s'.db == s.db && s'.starts == s.starts && s'.applies == s.applies && s'.deciders == s.deciders
    requires s'.posts == s.posts && s'.decisions == s.decisions
    ensures TablesInv(w, s')
  {
    hide RowsOk, StartsOk, AppliesOk, DecidersOk, PostsOk, DecisionsOk;
  }

  lemma CrashKeepsTables(w: World, s: State, s': State)
    requires TablesInv(w, s) && Step(w, s, Crash, s')
    ensures TablesInv(w, s')
  {
    hide RowsOk, PostsOk, DecisionsOk;
  }

  lemma TablesPreserved(w: World, s: State, e: Event, s': State)
    requires TablesInv(w, s) && (s.phase != Up ==> Idle(s)) && Step(w, s, e, s')
    ensures TablesInv(w, s')
  {
    hide TablesInv, SendStep, ApplyStep, DecideStep, StartStep, Recovered, CreateInvestigation, OrphanActiveJobs;
    match e
    case Create(_, _, _, _, _) => CreatePreserves(w, s, e, s');
    case DecideEvent(d, decide) => DecidePreserves(w, s, d, decide, s');
    case StartEvent(i, start) => StartPreserves(w, s, i, start, s');
    case ApplyEvent(i, apply) => ApplyPreserves(w, s, i, apply, s');
    case Recover(work) => RecoverPreserves(w, s, work, s');
    case SendEvent(n, send) =>
      SendFrame(w, s, n, send, s');
      TablesUntouched(w, s, s');
    case Crash => CrashKeepsTables(w, s, s');
    case _ => TablesUntouched(w, s, s');
  }

  lemma CrashKeepsSends(w: World, s: State, s': State)
    requires SendsInv(w, s) && Step(w, s, Crash, s')
    ensures SendsInv(w, s')
  {
    hide KeysUnique, QueuedOk, QueuedOnce, AnswersOk;
  }

  /** Nothing about dispatch was touched. */
  lemma SendsUntouched(w: World, s: State, s': State)
    requires SendsInv(w, s)
    requires s'.jobs == s.jobs && s'.posts == s.posts && s'.senders == s.senders
    requires s'.queued == s.queued && s'.answers == s.answers
    ensures SendsInv(w, s')
  {
    hide KeysUnique, SendersOk, SendersFresh, QueuedOk, QueuedOnce, AnswersOk;
  }

  lemma JobEventKeepsSends(w: World, s: State, e: Event, s': State)
    requires SendsInv(w, s) && (e.JobProgress? || e.OrphanJobs?) && Step(w, s, e, s')
    ensures SendsInv(w, s')
  {
    hide SendsInv;
    JobsMove(w, s, s');
  }

  lemma SendsPreserved(w: World, s: State, e: Event, s': State)
    requires SendsInv(w, s) && Step(w, s, e, s')
    ensures SendsInv(w, s')
  {
    hide SendsInv, SendStep, ApplyStep, DecideStep, StartStep, Recovered, CreateInvestigation;
    match e
    case SendEvent(n, send) => SendPreserves(w, s, n, send, s');
    case ApplyEvent(i, apply) =>
      ApplyFrame(w, s, i, apply, s');
      SendsKeepPosts(w, s, s');
    case JobProgress(job, row) => JobEventKeepsSends(w, s, e, s');
    case OrphanJobs(now) => JobEventKeepsSends(w, s, e, s');
    case DecideEvent(d, decide) =>
      DecideFrame(w, s, d, decide, s');
      SendsUntouched(w, s, s');
    case StartEvent(i, start) =>
      StartFrame(w, s, i, start, s');
      SendsUntouched(w, s, s');
    case Crash => CrashKeepsSends(w, s, s');
    case _ => SendsUntouched(w, s, s');
  }

  lemma StepPreserves(w: World, s: State, e: Event, s': State)
    requires Inv(w, s) && Step(w, s, e, s')
    ensures Inv(w, s')
  {
    hide Step, TablesInv, SendsInv, Idle;
    IdlePreserved(w, s, e, s');
    TablesPreserved(w, s, e, s');
    SendsPreserved(w, s, e, s');
  }

  lemma IdlePreserved(w: World, s: State, e: Event, s': State)
    requires (s.phase != Up ==> Idle(s)) && Step(w, s, e, s')
    ensures s'.phase != Up ==> Idle(s')
  {
    match e
    case Create(_, _, _, _, _) =>
    case DecideEvent(d, decide) => DecideFrame(w, s, d, decide, s');
    case StartEvent(i, start) => StartFrame(w, s, i, start, s');
    case ApplyEvent(i, apply) => ApplyFrame(w, s, i, apply, s');
    case SendEvent(n, send) => SendFrame(w, s, n, send, s');
    case _ =>
  }

  // ---------- what each party leaves alone ----------

  lemma CheckFrame(w: World, s: State, d: nat, current: Option<string>, now: real, s': State)
    requires CheckStep(w, s, d, current, now, s')
    ensures s' == s.(deciders := s'.deciders, accepted := s'.accepted)
  {
    hide Judge, CurrentIs, Judging;
  }

  lemma CommitFrame(s: State, d: nat, now: real, s': State)
    requires CommitStep(s, d, now, s')
    ensures s' == s.(db := s'.db, deciders := s'.deciders, accepted := s'.accepted, decisions := s'.decisions)
  {
    hide RecordDecision, Undecided;
  }

  lemma ConcludeFrame(s: State, d: nat, s': State)
    requires ConcludeStep(s, d, s')
    ensures s' == s.(db := s'.db, deciders := s'.deciders, applies := s'.applies)
  {
    hide SetStatus;
  }

  lemma DecideFrame(w: World, s: State, d: nat, e: DecideEvent, s': State)
    requires DecideStep(w, s, d, e, s')
    ensures s' == s.(db := s'.db, deciders := s'.deciders, applies := s'.applies, accepted := s'.accepted,
                     decisions := s'.decisions)
  {
    hide CheckStep, CommitStep, ConcludeStep;
    match e
    case Check(current, now) => CheckFrame(w, s, d, current, now, s');
    case Commit(now) => CommitFrame(s, d, now, s');
    case Conclude => ConcludeFrame(s, d, s');
    case _ =>
  }

  lemma StartFrame(w: World, s: State, i: string, e: StartEvent, s': State)
    requires StartStep(w, s, i, e, s')
    ensures s' == s.(db := s'.db, starts := s'.starts)
  {
  }

  lemma ApplyFrame(w: World, s: State, i: string, e: ApplyEvent, s': State)
    requires ApplyStep(w, s, i, e, s')
    ensures s' == s.(db := s'.db, applies := s'.applies, posts := s'.posts)
    ensures s.posts <= s'.posts
    ensures e.PostRepair? || s'.posts == s.posts
    ensures e.PostRepair? ==> s'.db == s.db
  {
  }

  lemma SendFrame(w: World, s: State, n: nat, e: SendEvent, s': State)
    requires SendStep(w, s, n, e, s')
    ensures s' == s.(jobs := s'.jobs, senders := s'.senders, queued := s'.queued, answers := s'.answers)
  {
  }
}
