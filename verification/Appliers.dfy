/** Applying an approved repair (driver/remediation.py): a fixed order of remote
    effects, with no model involved. */
module Appliers {
  import opened Wrappers
  import opened Tables
  import opened Approvals
  import opened Stores
  import Protocol

  /** A repair posted to the control plane. */
  datatype RepairPost = RepairPost(device: string, script: Script, timeout: int, key: string)

  datatype JobEnd = JobEnd(state: JobState, exitCode: Option<int>)

  /** What a diagnostic check made of its condition; None when it could not be completed. */
  type Verdict = Option<bool>

  /** The two checks of a catalogue repair, and whom they are asked about. */
  datatype Condition = Precondition | Verification

  datatype Check = Check(condition: Condition, repair: string, device: string, arguments: Arguments)

  /** What happened at the control plane, in order: a check and what it found, or a
      post and how the job ended; None is an error, although it may have been dispatched. */
  datatype Effect =
    | Checked(check: Check, verdict: Verdict)
    | Posted(post: RepairPost, end: Option<JobEnd>)

  datatype Outcome = Outcome(applied: bool, resolved: Option<bool>, before: Verdict, after: Verdict,
                             exitCode: Option<int>)

  predicate IsClean(end: JobEnd) {
    end.state == JobCompleted && end.exitCode == Some(0)
  }

  /** The control plane's client. A check or a dispatch may come out any way. */
  class RepairClient {
    ghost var effects: seq<Effect>

    constructor ()
      ensures effects == []
    {
      effects := [];
    }

    /** _evaluate: runs a read-only diagnostic. */
    method Evaluate(check: Check) returns (v: Verdict)
      modifies this
      ensures effects == old(effects) + [Checked(check, v)]
    {
      v := *;
      effects := effects + [Checked(check, v)];
    }

    /** run_raw */
    method RunRaw(post: RepairPost) returns (job: Option<JobEnd>)
      modifies this
      ensures effects == old(effects) + [Posted(post, job)]
    {
      job := *;
      effects := effects + [Posted(post, job)];
    }
  }

  /** What applying may do and report. Nothing unless authorised; otherwise the
      precondition is checked, and exactly if it held just then the authorised script is
      posted, once, under the proposal's key; it counts as applied exactly if that post
      came back with an end; and exactly if that end is clean the verification is
      checked, whose verdict decides whether the problem is resolved. */
  ghost predicate Applied(w: World, proposal: Proposal, approval: Option<Approval>, now: real, made: seq<Effect>,
                          o: Outcome) {
    var authorized := Authorize(w, proposal, approval, now);
    if authorized.Failure? then made == [] && o == Outcome(false, None, None, None, None)
    else
      approval.Some? && approval.value.repair.Some? &&
      var a := approval.value;
      var first := Check(Precondition, a.repair.value, a.device, a.arguments);
      var last := Check(Verification, a.repair.value, a.device, a.arguments);
      var post := RepairPost(a.device, authorized.value, w.timeout(a.repair.value), Protocol.RepairKey(proposal.id));
      && 1 <= |made| <= 3 && made[0] == Checked(first, o.before)
      && (|made| >= 2 <==> made[0].verdict == Some(true))
      && (|made| >= 2 ==> made[1].Posted? && made[1].post == post)
      && (|made| == 3 <==> |made| >= 2 && made[1].end.Some? && IsClean(made[1].end.value))
      && (|made| == 3 ==> made[2] == Checked(last, o.after))
      && (o.applied <==> |made| >= 2 && made[1].end.Some?)
      && (o.resolved == Some(true) <==> |made| == 3 && made[2].verdict == Some(true))
      && (o.resolved == Some(false) <==> o.applied && (|made| == 2 || made[2].verdict == Some(false)))
      && (|made| < 3 ==> o.after.None?)
      && o.exitCode == if o.applied then made[1].end.value.exitCode else None
  }

  /** Applier.apply */
  method Apply(w: World, client: RepairClient, proposal: Proposal, approval: Option<Approval>, now: real)
    returns (o: Outcome)
    modifies client
    ensures old(client.effects) <= client.effects
    ensures Applied(w, proposal, approval, now, client.effects[|old(client.effects)|..], o)
  {
    ghost var before := client.effects;
    var authorized := Authorize(w, proposal, approval, now);
    if authorized.Failure? { return Outcome(false, None, None, None, None); }
    var a := approval.value;
    var held := client.Evaluate(Check(Precondition, a.repair.value, a.device, a.arguments));
    ghost var checked := client.effects[|before|];
    if held != Some(true) {
      assert client.effects[|before|..] == [checked];
      return Outcome(false, None, held, None, None);
    }
    var job := client.RunRaw(RepairPost(a.device, authorized.value, w.timeout(a.repair.value),
                                        Protocol.RepairKey(proposal.id)));
    ghost var posted := client.effects[|before| + 1];
    if job.None? || !IsClean(job.value) {
      assert client.effects[|before|..] == [checked, posted];
      return if job.None? then Outcome(false, None, held, None, None)
             else Outcome(true, Some(false), held, None, job.value.exitCode);
    }
    var after := client.Evaluate(Check(Verification, a.repair.value, a.device, a.arguments));
    ghost var verified := client.effects[|before| + 2];
    assert client.effects[|before|..] == [checked, posted, verified];
    return Outcome(true, after, held, after, Some(0));
  }

  // ---------- the task around it ----------

  /** What is written down about an outcome: its view, and the sentence about it. */
  datatype Texts = Texts(view: Outcome -> string, detail: Outcome -> string)

  const MISSING := "missing device or proposal at apply time"

  /** The proposal whose approval is to be carried out, if there is one. */
  predicate IsApproved(db: Db, current: Option<string>) {
    && current.Some? && current.value in db.proposals && db.proposals[current.value].verdict.Some?
    && db.proposals[current.value].verdict.value.outcome == Approve
  }

  function Failing(notes: Notes, error: string): Notes {
    notes.(error := Some(error))
  }

  /** What an outcome leaves in the investigation's row. */
  function Noted(notes: Notes, o: Outcome, texts: Texts): Notes {
    var noted := notes.(outcome := Some(texts.view(o)));
    if o.applied then noted else Failing(noted, texts.detail(o))
  }

  function EndStatus(o: Outcome): Status {
    if !o.applied then Failed else if o.resolved == Some(true) then Resolved else Unresolved
  }

  predicate IsApplying(db: Db, i: string) {
    i in db.investigations && db.investigations[i].status in {Applying, Verifying}
  }

  /** What one task does to the tables and the control plane, undisturbed. */
  ghost predicate Ran(w: World, before: Db, enrolled: bool, i: string, current: Option<string>, now: real,
                      texts: Texts, made: seq<Effect>, o: Outcome, after: Db) {
    if !IsApplying(before, i) then made == [] && after == before
    else
      var inv := before.investigations[i];
      CurrentIs(before, i, current) &&
      if !enrolled || !IsApproved(before, current) then
        made == [] && after == SetStatus(SetNotes(before, i, Failing(inv.notes, MISSING)), i, Failed)
      else
        var row := before.proposals[current.value];
        var proposal := ProposalFromRow(inv.device, current.value, row);
        && Applied(w, proposal, Some(ApprovalFromRow(inv.device, current.value, row)), now, made, o)
        && after == SetStatus(SetNotes(before, i, Noted(inv.notes, o, texts)), i, EndStatus(o))
  }

  /** What is shown of a repair that was attempted, by what happened alone: resolved
      exactly if a verification came last and succeeded, failed exactly if no post came
      back with an end, with the error noted, and otherwise unresolved. */
  ghost predicate Shown(before: Db, i: string, texts: Texts, made: seq<Effect>, o: Outcome, after: Db) {
    && i in before.investigations && after.investigations.Keys == before.investigations.Keys
    && after.proposals == before.proposals
    && (forall k | k in after.investigations && k != i :: after.investigations[k] == before.investigations[k])
    && var was, row := before.investigations[i], after.investigations[i];
       var last := if made == [] then None else Some(made[|made| - 1]);
       && (row.status == Resolved <==>
             last.Some? && last.value.Checked? && last.value.check.condition == Verification
             && last.value.verdict == Some(true))
       && (row.status == Failed <==> forall k | 0 <= k < |made| && made[k].Posted? :: made[k].end.None?)
       && (row.status != Resolved && row.status != Failed ==> row.status == Unresolved)
       && row == was.(status := row.status, notes := was.notes.(outcome := Some(texts.view(o)),
                        error := if row.status == Failed then Some(texts.detail(o)) else was.notes.error))
  }

  /** A task with nothing to carry out says so. */
  ghost predicate Missed(before: Db, i: string, after: Db) {
    && i in before.investigations
    && after == before.(investigations := before.investigations[i := before.investigations[i].(status := Failed,
         notes := before.investigations[i].notes.(error := Some("missing device or proposal at apply time")))])
  }

  /** _run_apply */
  method RunApply(w: World, store: Store, client: RepairClient, i: string, now: real, texts: Texts)
    returns (o: Outcome, current: Option<string>)
    modifies client, store`investigations
    ensures old(client.effects) <= client.effects
    ensures var enrolled := i in old(store.investigations) && old(store.investigations)[i].device in store.revoked;
            Ran(w, old(store.Data()), enrolled, i, current, now, texts, client.effects[|old(client.effects)|..], o,
                store.Data())
    ensures var before, made := old(store.Data()), client.effects[|old(client.effects)|..];
            if !IsApplying(before, i) then made == [] && store.Data() == before
            else if before.investigations[i].device in store.revoked && IsApproved(before, current)
            then Shown(before, i, texts, made, o, store.Data())
            else made == [] && Missed(before, i, store.Data())
  {
    o, current := Outcome(false, None, None, None, None), None;
    ghost var before := store.Data();
    assert client.effects[|old(client.effects)|..] == [];
    if i !in store.investigations || store.investigations[i].status !in {Applying, Verifying} { return; }
    var inv := store.investigations[i];
    current := store.GetCurrentProposal(i);
    if inv.device !in store.revoked || current.None? || store.proposals[current.value].verdict.None?
       || store.proposals[current.value].verdict.value.outcome != Approve {
      MissesAsShown(w, before, inv.device in store.revoked, i, current, now, texts, o);
      hide Ran, Missed, Shown, SetNotes, SetStatus, OnlyRow, IsApproved, IsCurrent, HasProposal;
      store.SetInvestigationNotes(i, Failing(inv.notes, MISSING));
      store.SetInvestigationStatus(i, Failed);
      return;
    }
    var row := store.proposals[current.value];
    var proposal := ProposalFromRow(inv.device, current.value, row);
    var approval := ApprovalFromRow(inv.device, current.value, row);
    hide Applied, Ran, Missed, Shown, SetNotes, SetStatus, OnlyRow, IsCurrent, HasProposal;
    o := Apply(w, client, proposal, Some(approval), now);
    ghost var made := client.effects[|old(client.effects)|..];
    AppliesAsShown(w, before, i, current, now, texts, made, o);
    hide IsApproved;
    store.SetInvestigationNotes(i, Noted(inv.notes, o, texts));
    store.SetInvestigationStatus(i, EndStatus(o));
  }

  lemma MissesAsShown(w: World, before: Db, enrolled: bool, i: string, current: Option<string>, now: real, texts: Texts,
                      o: Outcome)
    requires IsApplying(before, i) && CurrentIs(before, i, current) && !(enrolled && IsApproved(before, current))
    ensures var after := SetStatus(SetNotes(before, i, Failing(before.investigations[i].notes, MISSING)), i, Failed);
            Ran(w, before, enrolled, i, current, now, texts, [], o, after) && Missed(before, i, after)
  {
    hide IsApproved, CurrentIs;
  }

  lemma AppliesAsShown(w: World, before: Db, i: string, current: Option<string>, now: real, texts: Texts,
                       made: seq<Effect>, o: Outcome)
    requires IsApplying(before, i) && CurrentIs(before, i, current) && IsApproved(before, current)
    requires var inv, row := before.investigations[i], before.proposals[current.value];
             Applied(w, ProposalFromRow(inv.device, current.value, row),
                     Some(ApprovalFromRow(inv.device, current.value, row)), now, made, o)
    ensures var noted := SetNotes(before, i, Noted(before.investigations[i].notes, o, texts));
            var after := SetStatus(noted, i, EndStatus(o));
            Ran(w, before, true, i, current, now, texts, made, o, after) && Shown(before, i, texts, made, o, after)
  {
    var inv, row := before.investigations[i], before.proposals[current.value];
    EndsAsShown(w, before, i, ProposalFromRow(inv.device, current.value, row),
                ApprovalFromRow(inv.device, current.value, row), now, texts, made, o);
    hide CurrentIs, Applied, Shown, SetStatus, SetNotes;
  }

  /** The status and notes written at the end are what is to be shown. */
  lemma EndsAsShown(w: World, db: Db, i: string, proposal: Proposal, approval: Approval, now: real, texts: Texts,
                    made: seq<Effect>, o: Outcome)
    requires i in db.investigations && Applied(w, proposal, Some(approval), now, made, o)
    ensures Shown(db, i, texts, made, o, SetStatus(SetNotes(db, i, Noted(db.investigations[i].notes, o, texts)), i,
                                                   EndStatus(o)))
  {
    hide Authorize;
  }
}
