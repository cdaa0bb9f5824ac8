/** The store (server/store.py): each method takes the lock, runs its statements
    and commits once, so each is one atomic update of the tables. */
module Stores {
  import opened Wrappers
  import opened Tables

  /** What the recovery query returns for one investigation. */
  datatype Interrupted = Interrupted(investigation: string, status: Status, decision: Option<Outcome>)

  class Store {
    var investigations: map<string, InvestigationRow>
    var proposals: map<string, ProposalRow>
    var jobs: JobRows
    var revoked: map<string, bool>      // enrolled devices; the other columns are not needed here

    ghost function Data(): Db
      reads this`investigations, this`proposals
    {
      Db(investigations, proposals)
    }

    constructor ()
      ensures investigations == map[] && proposals == map[] && jobs == map[] && revoked == map[]
    {
      investigations, proposals, jobs, revoked := map[], map[], map[], map[];
    }

    // ---------- devices ----------

    method RevokeDevice(device: string) returns (known: bool)
      modifies this`revoked
      ensures known == (device in old(revoked))
      ensures revoked == if known then old(revoked)[device := true] else old(revoked)
    {
      known := device in revoked;
      if known { revoked := revoked[device := true]; }
    }

    // ---------- jobs ----------

    /** Not accepted is the exception the caller sees: a constraint or an encoding error. */
    method InsertJob(job: string, spec: JobSpec) returns (accepted: bool)
      modifies this`jobs
      ensures accepted <==> InsertAccepted(old(jobs), job, spec)
      ensures if accepted then RowAdded(old(jobs), jobs, job, spec) else jobs == old(jobs)
      ensures KeysUnique(old(jobs)) ==> KeysUnique(jobs)
    {
      if job in jobs || !Encodable(spec.script) { return false; }
      if spec.key.Some? {
        var earlier := JobForIdempotencyKey(spec.key.value);
        if earlier.Some? { return false; }
      }
      jobs := jobs[job := JobRow(spec, JobQueued, None, None, NO_RESULT)];
      return true;
    }

    method JobForIdempotencyKey(key: string) returns (earlier: Option<string>)
      ensures earlier.Some? <==> KeyTaken(jobs, key)
      ensures earlier.Some? ==> earlier.value in jobs && jobs[earlier.value].spec.key == Some(key)
    {
      if job :| job in jobs && jobs[job].spec.key == Some(key) {
        return Some(job);
      }
      return None;
    }

    method MarkDispatched(job: string, at: real)
      modifies this`jobs
      ensures jobs == Tables.MarkDispatched(old(jobs), job, at)
      ensures KeysUnique(old(jobs)) ==> KeysUnique(jobs)
    {
      jobs := Tables.MarkDispatched(jobs, job, at);
    }

    method UpdateJobState(job: string, state: JobState)
      modifies this`jobs
      ensures jobs == Tables.UpdateJobState(old(jobs), job, state)
      ensures KeysUnique(old(jobs)) ==> KeysUnique(jobs)
    {
      jobs := Tables.UpdateJobState(jobs, job, state);
    }

    /** Text that is not UTF-8 encodable raises before the statement runs. */
    method CompleteJob(job: string, state: JobState, result: JobResult, now: real) returns (stored: bool)
      modifies this`jobs
      ensures stored <==> Storable(result)
      ensures if stored then RowFinished(old(jobs), jobs, job, state, result, now) else jobs == old(jobs)
      ensures KeysUnique(old(jobs)) ==> KeysUnique(jobs)
    {
      stored := Storable(result);
      if stored && job in jobs {
        jobs := jobs[job := jobs[job].(state := state, result := result, completedAt := Some(now))];
      }
    }

    method OrphanActiveJobs(now: real)
      modifies this`jobs
      ensures NoneInFlight(old(jobs), jobs, now)
      ensures KeysUnique(old(jobs)) ==> KeysUnique(jobs)
    {
      jobs := map j | j in jobs :: OrphanRow(jobs[j], now);
    }

    // ---------- investigations ----------

    /** A retried request returns the row that already exists. */
    method CreateInvestigation(i: string, device: string, problem: string, createdBy: string, requestId: string)
      returns (row: Option<string>, created: bool)
      modifies this`investigations
      ensures Data() == Tables.CreateInvestigation(old(Data()), i, device, problem, createdBy, requestId)
      ensures created == (Data() != old(Data()))
      ensures row.Some? ==> (row.value in investigations &&
                investigations[row.value].createdBy == createdBy && investigations[row.value].requestId == requestId)
      ensures row.Some? <==> RequestTaken(Data(), createdBy, requestId)
      ensures created ==> RequestTaken(Data(), createdBy, requestId)
      ensures created <==> i !in old(investigations) && forall k | k in old(investigations) ::
                !(old(investigations)[k].createdBy == createdBy && old(investigations)[k].requestId == requestId)
      ensures investigations == if created
                then old(investigations)[i := InvestigationRow(device, problem, createdBy, requestId, Queued,
                                                               Notes(None, None, None, None, []))]
                else old(investigations)
    {
      created := i !in investigations && !RequestTaken(Db(investigations, map[]), createdBy, requestId);
      if created {
        investigations := investigations[i := InvestigationRow(device, problem, createdBy, requestId, Queued, CLEAN)];
        assert investigations[i].requestId == requestId;
      }
      if k :| k in investigations && investigations[k].createdBy == createdBy
              && investigations[k].requestId == requestId {
        row := Some(k);
      } else {
        row := None;
      }
    }

    method SetInvestigationStatus(i: string, status: Status)
      modifies this`investigations
      ensures OnlyRow(old(investigations), investigations, i)
      ensures i in investigations ==> investigations[i] == old(investigations)[i].(status := status)
      ensures Data() == SetStatus(old(Data()), i, status)
    {
      if i in investigations { investigations := investigations[i := investigations[i].(status := status)]; }
    }

    /** set_investigation_outcome, set_investigation_error and their like. */
    method SetInvestigationNotes(i: string, notes: Notes)
      modifies this`investigations
      ensures OnlyRow(old(investigations), investigations, i)
      ensures i in investigations ==> investigations[i] == old(investigations)[i].(notes := notes)
      ensures Data() == SetNotes(old(Data()), i, notes)
    {
      if i in investigations { investigations := investigations[i := investigations[i].(notes := notes)]; }
    }

    /** Only one worker may move a queued investigation into diagnosis. */
    method ClaimQueuedInvestigation(i: string) returns (won: bool)
      modifies this`investigations
      ensures Data() == ClaimQueued(old(Data()), i)
      ensures won <==> i in old(investigations) && old(investigations)[i].status == Queued
      ensures OnlyRow(old(investigations), investigations, i)
      ensures if won then investigations[i] == old(investigations)[i].(status := Investigating)
              else investigations == old(investigations)
    {
      won := i in investigations && investigations[i].status == Queued;
      if won { investigations := investigations[i := investigations[i].(status := Investigating)]; }
    }

    // ---------- proposals ----------

    method CreateProposal(p: string, row: ProposalRow) returns (accepted: bool)
      modifies this`proposals
      ensures accepted == (p !in old(proposals))
      ensures Data() == if p !in old(proposals) then Tables.CreateProposal(old(Data()), p, row) else old(Data())
      ensures proposals == if accepted then old(proposals)[p := row] else old(proposals)
    {
      accepted := p !in proposals;
      if accepted { proposals := proposals[p := row]; }
    }

    /** The newest proposal; any of the newest when several were stored at the same instant. */
    method GetCurrentProposal(i: string) returns (current: Option<string>)
      ensures CurrentIs(Data(), i, current)
    {
      if p :| p in proposals && IsCurrent(Db(investigations, proposals), i, p) {
        current := Some(p);
      } else {
        current := None;
        ghost var none := CurrentExists(Data(), i);
      }
    }

    /** Compare-and-set: only the first decision is recorded, and only its caller wins. */
    method RecordProposalDecision(p: string, decidedBy: string, outcome: Outcome, now: real)
      returns (row: Option<ProposalRow>, won: bool)
      modifies this`proposals
      ensures won <==> p in old(proposals) && old(proposals)[p].verdict.None?
      ensures proposals == if won
                then old(proposals)[p := old(proposals)[p].(verdict := Some(Verdict(now, decidedBy, outcome)))]
                else old(proposals)
      ensures Data() == RecordDecision(old(Data()), p, Verdict(now, decidedBy, outcome))
      ensures row == if p in proposals then Some(proposals[p]) else None
    {
      won := p in proposals && proposals[p].verdict.None?;
      if won {
        proposals := proposals[p := proposals[p].(verdict := Some(Verdict(now, decidedBy, outcome)))];
      }
      row := if p in proposals then Some(proposals[p]) else None;
    }

    // ---------- recovery ----------

    /** The SELECT of recover_investigations: every unfinished investigation once,
        with the outcome recorded on its newest proposal. */
    method SelectInterrupted() returns (rows: seq<Interrupted>)
      ensures forall k | 0 <= k < |rows| :: IsInterrupted(Data(), rows[k])
      ensures forall k, l | 0 <= k < l < |rows| :: rows[k].investigation != rows[l].investigation
      ensures forall i | i in investigations && Unfinished(investigations[i].status) :: Handled(rows, i)
    {
      rows := [];
      var rest := investigations.Keys;
      while rest != {}
        invariant rest <= investigations.Keys
        invariant forall k | 0 <= k < |rows| :: IsInterrupted(Data(), rows[k]) && rows[k].investigation !in rest
        invariant forall k, l | 0 <= k < l < |rows| :: rows[k].investigation != rows[l].investigation
        invariant forall i | i in investigations && i !in rest && Unfinished(investigations[i].status) ::
                  Handled(rows, i)
        decreases |rest|
      {
        var i :| i in rest;
        rest := rest - {i};
        if Unfinished(investigations[i].status) {
          var current := GetCurrentProposal(i);
          var decision := if current.None? || proposals[current.value].verdict.None? then None
                          else Some(proposals[current.value].verdict.value.outcome);
          assert decision == LatestOutcome(Data(), current);
          ghost var row := Interrupted(i, investigations[i].status, decision);
          forall k ensures Handled(rows + [row], k) <==> Handled(rows, k) || k == i {
            HandledNext(rows, row, k);
          }
          rows := rows + [Interrupted(i, investigations[i].status, decision)];
        }
      }
    }

    /** The writes for one interrupted investigation, and the work they leave. */
    method RecoverOne(row: Interrupted) returns (kind: Option<Kind>)
      requires row.investigation in investigations && investigations[row.investigation].status == row.status
      requires Unfinished(row.status)
      modifies this`investigations, this`proposals
      ensures var i := row.investigation;
              investigations == old(investigations)[i := RecoverRow(old(investigations)[i], row.decision)]
      ensures kind == RecoverKind(old(investigations)[row.investigation], row.decision)
      ensures proposals == if row.status in {Investigating, Planning}
                           then UndecidedDeleted(old(proposals), row.investigation) else old(proposals)
    {
      var i := row.investigation;
      kind := None;
      if row.status in {Queued, Investigating, Planning} {
        if row.status != Queued {
          proposals := UndecidedDeleted(proposals, i);
          investigations := investigations[i := investigations[i].(status := Queued, notes := CLEAN)];
        }
        kind := Some(Start);
      } else if row.decision == Some(Approve) {
        investigations := investigations[i := investigations[i].(status := Applying)];
        kind := Some(Apply);
      } else if row.decision == Some(Reject) {
        investigations := investigations[i := investigations[i].(status := Rejected)];
      } else if row.status in {Applying, Verifying} {
        investigations := investigations[i := investigations[i].(status := Failed,
          notes := investigations[i].notes.(error :=
            Some("Repair state could not be recovered because its approval is missing.")))];
      }
    }

    /** Makes interrupted background work runnable after a restart. */
    method RecoverInvestigations() returns (work: seq<(string, Kind)>)
      modifies this`investigations, this`proposals
      ensures Recovered(old(Data()), Data(), Elements(work))
      ensures forall k, l | 0 <= k < l < |work| :: work[k].0 != work[l].0
    {
      var rows := SelectInterrupted();
      ghost var before := Data();
      hide RowsDone, WorkDone, ProposalsLeft, UndecidedDeleted, RecoverRow, RecoverKind, Recovered;
      NothingDone(before, Data());
      work := [];
      var k := 0;
      while k < |rows|
        invariant k <= |rows|
        invariant PartlyRecovered(before, rows[..k], Data(), work)
      {
        var row := rows[k];
        var i := row.investigation;
        ghost var earlier, done := Data(), work;
        assert IsInterrupted(before, row) && !Handled(rows[..k], i);
        NotYetDone(before, rows[..k], investigations, i);
        var kind := RecoverOne(row);
        work := work + if kind.Some? then [(i, kind.value)] else [];
        RowsNext(before, rows[..k], row, earlier.investigations, investigations);
        WorkNext(before, rows[..k], row, done, kind);
        ProposalsNext(before, rows[..k], row, proposals);
        assert rows[..k + 1] == rows[..k] + [row];
        k := k + 1;
      }
      assert rows[..|rows|] == rows;
      AllRecovered(before, rows, Data(), work);
      DistinctWork(before, rows, work);
    }
  }

  /** No row but this one is touched. */
  predicate OnlyRow(before: map<string, InvestigationRow>, after: map<string, InvestigationRow>, i: string) {
    after.Keys == before.Keys && forall k | k in after && k != i :: after[k] == before[k]
  }

  /** DELETE ... WHERE investigation_id = i AND decided_at IS NULL */
  function UndecidedDeleted(proposals: map<string, ProposalRow>, i: string): map<string, ProposalRow> {
    map p | p in proposals && !(proposals[p].investigation == i && proposals[p].verdict.None?) :: proposals[p]
  }

  function Elements<T(==)>(s: seq<T>): set<T> {
    set x | x in s
  }

  ghost predicate IsInterrupted(db: Db, row: Interrupted) {
    && row.investigation in db.investigations
    && row.status == db.investigations[row.investigation].status && Unfinished(row.status)
    && exists p: Option<string> :: CurrentIs(db, row.investigation, p) && row.decision == LatestOutcome(db, p)
  }

  // ---------- the newest proposal ----------

  lemma {:induction false} NewestOf(rows: map<string, ProposalRow>, candidates: set<string>) returns (p: string)
    requires candidates != {} && candidates <= rows.Keys
    ensures p in candidates && forall q | q in candidates :: rows[q].createdAt <= rows[p].createdAt
    decreases |candidates|
  {
    p :| p in candidates;
    var others := candidates - {p};
    if others != {} {
      var best := NewestOf(rows, others);
      if rows[p].createdAt <= rows[best].createdAt { p := best; }
    }
  }

  /** ORDER BY created_at DESC LIMIT 1 finds a row whenever there is one. */
  lemma CurrentExists(db: Db, i: string) returns (p: Option<string>)
    ensures CurrentIs(db, i, p)
  {
    var candidates := set q | q in db.proposals && db.proposals[q].investigation == i;
    if candidates == {} {
      p := None;
      forall q | q in db.proposals ensures db.proposals[q].investigation != i { assert q !in candidates; }
    } else {
      var newest := NewestOf(db.proposals, candidates);
      assert forall q | q in db.proposals && db.proposals[q].investigation == i :: q in candidates;
      p := Some(newest);
    }
  }

  // ---------- the recovery loop ----------

  ghost predicate Handled(rows: seq<Interrupted>, i: string) {
    exists k :: 0 <= k < |rows| && rows[k].investigation == i
  }

  ghost predicate RowsDone(before: Db, rows: seq<Interrupted>, after: map<string, InvestigationRow>) {
    && after.Keys == before.investigations.Keys
    && (forall k | 0 <= k < |rows| :: rows[k].investigation in after
          && after[rows[k].investigation] == RecoverRow(before.investigations[rows[k].investigation], rows[k].decision))
    && (forall i | i in after && !Handled(rows, i) :: after[i] == before.investigations[i])
  }

  ghost predicate WorkFor(before: Db, row: Interrupted, work: seq<(string, Kind)>)
    requires row.investigation in before.investigations
  {
    forall kind :: (row.investigation, kind) in work
      <==> RecoverKind(before.investigations[row.investigation], row.decision) == Some(kind)
  }

  ghost predicate WorkDone(before: Db, rows: seq<Interrupted>, work: seq<(string, Kind)>) {
    && (forall k | 0 <= k < |rows| :: rows[k].investigation in before.investigations && WorkFor(before, rows[k], work))
    && (forall k | 0 <= k < |work| :: Handled(rows, work[k].0))
    && (forall k, l | 0 <= k < l < |work| :: work[k].0 != work[l].0)
  }

  ghost function ProposalsLeft(before: Db, rows: seq<Interrupted>): map<string, ProposalRow> {
    map p | p in before.proposals && !(Discarded(before, p) && Handled(rows, before.proposals[p].investigation))
      :: before.proposals[p]
  }

  /** The tables and the work list after the rows so far. */
  ghost predicate PartlyRecovered(before: Db, rows: seq<Interrupted>, db: Db, work: seq<(string, Kind)>) {
    && RowsDone(before, rows, db.investigations)
    && WorkDone(before, rows, work)
    && db.proposals == ProposalsLeft(before, rows)
  }

  lemma NothingDone(before: Db, db: Db)
    requires db == before
    ensures PartlyRecovered(before, [], db, [])
  {
    assert ProposalsLeft(before, []) == before.proposals;
  }

  lemma NotYetDone(before: Db, rows: seq<Interrupted>, after: map<string, InvestigationRow>, i: string)
    requires RowsDone(before, rows, after) && i in before.investigations && !Handled(rows, i)
    ensures i in after && after[i] == before.investigations[i]
  {
  }

  lemma DistinctWork(before: Db, rows: seq<Interrupted>, work: seq<(string, Kind)>)
    requires WorkDone(before, rows, work)
    ensures forall k, l | 0 <= k < l < |work| :: work[k].0 != work[l].0
  {
  }

  lemma HandledNext(rows: seq<Interrupted>, row: Interrupted, i: string)
    ensures Handled(rows + [row], i) <==> Handled(rows, i) || i == row.investigation
  {
    if Handled(rows, i) {
      var k :| 0 <= k < |rows| && rows[k].investigation == i;
      assert (rows + [row])[k].investigation == i;
    }
    assert (rows + [row])[|rows|] == row;
  }

  lemma RowsNext(before: Db, rows: seq<Interrupted>, row: Interrupted, earlier: map<string, InvestigationRow>,
                 after: map<string, InvestigationRow>)
    requires RowsDone(before, rows, earlier) && !Handled(rows, row.investigation)
    requires row.investigation in before.investigations
    requires after == earlier[row.investigation := RecoverRow(before.investigations[row.investigation], row.decision)]
    ensures RowsDone(before, rows + [row], after)
  {
    forall i | i in after && !Handled(rows + [row], i) ensures after[i] == before.investigations[i] {
      HandledNext(rows, row, i);
    }
    forall k | 0 <= k < |rows + [row]| ensures (rows + [row])[k].investigation in after {
      assert k < |rows| ==> rows[k].investigation in earlier;
    }
    forall k | 0 <= k < |rows| ensures after[rows[k].investigation] == earlier[rows[k].investigation] {
      assert rows[k].investigation != row.investigation;
    }
  }

  lemma WorkNext(before: Db, rows: seq<Interrupted>, row: Interrupted, earlier: seq<(string, Kind)>, kind: Option<Kind>)
    requires WorkDone(before, rows, earlier) && !Handled(rows, row.investigation)
    requires row.investigation in before.investigations
    requires kind == RecoverKind(before.investigations[row.investigation], row.decision)
    ensures WorkDone(before, rows + [row], earlier + if kind.Some? then [(row.investigation, kind.value)] else [])
  {
    var added := if kind.Some? then [(row.investigation, kind.value)] else [];
    var work := earlier + added;
    forall k | 0 <= k < |rows + [row]| ensures WorkFor(before, (rows + [row])[k], work) {
      var next := (rows + [row])[k];
      if k < |rows| {
        assert WorkFor(before, rows[k], earlier) && next.investigation != row.investigation;
        forall any: Kind ensures (next.investigation, any) in work <==> (next.investigation, any) in earlier {
        }
      } else {
        forall any: Kind ensures (row.investigation, any) in work <==> kind == Some(any) {
          assert (row.investigation, any) !in earlier;
        }
      }
    }
    forall k | 0 <= k < |work| ensures Handled(rows + [row], work[k].0) {
      HandledNext(rows, row, work[k].0);
    }
  }

  lemma ProposalsNext(before: Db, rows: seq<Interrupted>, row: Interrupted, after: map<string, ProposalRow>)
    requires row.investigation in before.investigations
    requires row.status == before.investigations[row.investigation].status
    requires after == if row.status in {Investigating, Planning}
                      then UndecidedDeleted(ProposalsLeft(before, rows), row.investigation)
                      else ProposalsLeft(before, rows)
    ensures after == ProposalsLeft(before, rows + [row])
  {
    forall p | p in before.proposals
      ensures p in after <==> p in ProposalsLeft(before, rows + [row])
    {
      HandledNext(rows, row, before.proposals[p].investigation);
    }
  }

  lemma RecoveredHere(before: Db, rows: seq<Interrupted>, db: Db, work: seq<(string, Kind)>, i: string)
    requires PartlyRecovered(before, rows, db, work) && i in before.investigations
    requires forall k | 0 <= k < |rows| :: IsInterrupted(before, rows[k])
    requires Unfinished(before.investigations[i].status) ==> Handled(rows, i)
    ensures RowRecovered(before, db.investigations, Elements(work), i)
  {
    if Handled(rows, i) {
      var k :| 0 <= k < |rows| && rows[k].investigation == i;
      assert IsInterrupted(before, rows[k]) && WorkFor(before, rows[k], work);
      var p: Option<string> :| CurrentIs(before, i, p) && rows[k].decision == LatestOutcome(before, p);
      forall kind ensures (i, kind) in Elements(work)
        <==> RecoverKind(before.investigations[i], LatestOutcome(before, p)) == Some(kind) {
      }
    } else {
      var p := CurrentExists(before, i);
      forall kind ensures (i, kind) !in Elements(work) {
      }
    }
  }

  lemma AllRecovered(before: Db, rows: seq<Interrupted>, db: Db, work: seq<(string, Kind)>)
    requires PartlyRecovered(before, rows, db, work)
    requires forall k | 0 <= k < |rows| :: IsInterrupted(before, rows[k])
    requires forall i | i in before.investigations && Unfinished(before.investigations[i].status) :: Handled(rows, i)
    ensures Recovered(before, db, Elements(work))
  {
    forall i | i in before.investigations ensures RowRecovered(before, db.investigations, Elements(work), i) {
      RecoveredHere(before, rows, db, work, i);
    }
    forall w | w in Elements(work) ensures w.0 in before.investigations {
      assert Handled(rows, w.0);
    }
    assert db.proposals == KeptProposals(before);
  }
}
