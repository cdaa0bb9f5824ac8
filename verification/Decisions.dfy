/** The decision route (server/main.py) and the scheduler of repair tasks
    (server/investigations.py), undisturbed: one request from start to end. The
    protocol's steps are the same writes with other parties in between. */
module Decisions {
  import opened Wrappers
  import opened Tables
  import opened Approvals
  import opened Stores
  import Protocol

  datatype Reply =
    | Unknown                              // 404
    | Declined(judgement: Judgement)       // 409, with the reason
    | Accepted                             // this request's decision, or an identical earlier one, stands

  /** The status that follows a decision. */
  function Following(decision: Outcome): Status {
    if decision == Approve then Applying else Rejected
  }

  class Investigations {
    const store: Store
    var applying: set<string>              // running `apply` tasks

    constructor (store: Store)
      ensures this.store == store && applying == {}
    {
      this.store, applying := store, {};
    }

    /** _schedule("apply", i): one runner per investigation. */
    method ScheduleApply(i: string) returns (scheduled: bool)
      modifies this
      ensures scheduled == (i !in old(applying)) && applying == old(applying) + {i}
    {
      scheduled := i !in applying;
      applying := applying + {i};
    }

    /** The status follows the decision; an approval starts the repair. */
    method Conclude(i: string, decision: Outcome)
      requires i in store.investigations
      modifies this, store`investigations
      ensures store.Data() == SetStatus(old(store.Data()), i, Following(decision))
      ensures applying == if decision == Approve then old(applying) + {i} else old(applying)
    {
      if decision == Approve {
        store.SetInvestigationStatus(i, Applying);
        var scheduled := ScheduleApply(i);
      } else {
        store.SetInvestigationStatus(i, Rejected);
      }
    }

    /** decide_investigation. `current` is the proposal that was read. */
    method Decide(w: World, i: string, operator: string, request: DecisionRequest, checkedAt: real, now: real)
      returns (reply: Reply, current: Option<string>)
      modifies this, store`investigations, store`proposals
      ensures reply == Unknown <==> i !in old(store.investigations)
      ensures reply == Unknown ==> store.Data() == old(store.Data()) && applying == old(applying)
      ensures reply != Unknown ==>
                (CurrentIs(old(store.Data()), i, current) &&
                 var judgement := JudgementOn(w, old(store.Data()), i, current, request, checkedAt);
                 && (reply == Accepted <==> judgement.Record? || judgement.Repeat?)
                 && (judgement.Record? || judgement.Repeat? || reply == Declined(judgement))
                 && store.Data() == Decided(judgement, old(store.Data()), i, operator, request, now)
                 && applying == if request.decision == Approve && Concludes(judgement)
                                then old(applying) + {i} else old(applying))
      ensures reply != Unknown ==> Answers(w, old(store.Data()), i, current, request, checkedAt, reply)
      ensures reply != Unknown ==>
                Leaves(old(store.Data()), store.Data(), i, current, operator, request, now, reply == Accepted)
      ensures applying == if reply == Accepted && request.decision == Approve
                             && old(store.investigations)[i].status == AwaitingApproval
                          then old(applying) + {i} else old(applying)
    {
      current := None;
      if i !in store.investigations { return Unknown, None; }
      var inv := store.investigations[i];
      current := store.GetCurrentProposal(i);
      JudgedAsAnswered(w, store.Data(), i, current, operator, request, checkedAt, now);
      hide Answers, Leaves, IsCurrent, HasProposal, Judge, RecordDecision, SetStatus;
      var proposal := if current.None? then None else Some((current.value, store.proposals[current.value]));
      match Judge(w, i, inv.device, inv.status, proposal, request, checkedAt)
      case Repeat(heal) =>
        if heal { Conclude(i, request.decision); }
        return Accepted, current;
      case Record =>
        var row, recorded := store.RecordProposalDecision(request.proposal, operator, request.decision, now);
        Conclude(i, request.decision);
        return Accepted, current;
      case other =>
        return Declined(other), current;
    }
  }

  ghost function JudgementOn(w: World, db: Db, i: string, current: Option<string>, request: DecisionRequest,
                             checkedAt: real): Judgement
    requires i in db.investigations && CurrentIs(db, i, current)
  {
    var inv := db.investigations[i];
    var proposal := if current.None? then None else Some((current.value, db.proposals[current.value]));
    Judge(w, i, inv.device, inv.status, proposal, request, checkedAt)
  }

  predicate Concludes(judgement: Judgement) {
    judgement.Record? || (judgement.Repeat? && judgement.heal)
  }

  /** What one undisturbed request leaves behind: a decision is recorded and
      concluded exactly when it is judged to be, an identical earlier one only
      heals a status that was left waiting, and a declined one changes nothing. */
  function Decided(judgement: Judgement, before: Db, i: string, operator: string, request: DecisionRequest,
                   now: real): Db {
    var verdict := Verdict(now, operator, request.decision);
    var recorded := if judgement.Record? then RecordDecision(before, request.proposal, verdict) else before;
    if Concludes(judgement) then SetStatus(recorded, i, Following(request.decision)) else recorded
  }

  // ---------- what the answers mean ----------

  /** There is a proposal to decide on. */
  predicate Offered(db: Db, current: Option<string>) {
    current.Some? && current.value in db.proposals && db.proposals[current.value].content.decision == Proposed
  }

  /** The request carries the id, hash and device of the proposal as it stands, and the
      stored hash is that of its fields. */
  predicate Echoes(w: World, db: Db, i: string, current: Option<string>, request: DecisionRequest)
    requires i in db.investigations && Offered(db, current)
  {
    var device, row := db.investigations[i].device, db.proposals[current.value];
    && request.proposal == current.value && request.hash == row.hash && request.device == device
    && row.hash == w.digest(Binding(i, device, current.value, row.content.(refusalReason := ""), row.expiresAt))
  }

  /** Exactly when each answer is given: accepted if the binding matches and the row is
      decided the same way, or undecided, awaiting and, to approve, unexpired; each
      refusal in its own case. */
  predicate Answers(w: World, db: Db, i: string, current: Option<string>, request: DecisionRequest, checkedAt: real,
                    reply: Reply)
    requires i in db.investigations
  {
    if !Offered(db, current) then reply == Declined(NoActionableProposal)
    else
      var status, row := db.investigations[i].status, db.proposals[current.value];
      var echoes, open := Echoes(w, db, i, current, request), row.verdict.None?;
      var waiting := status == AwaitingApproval;
      var timely := request.decision == Approve ==> row.expiresAt.Some? && checkedAt < row.expiresAt.value;
      && (reply == Accepted <==>
            echoes && if open then waiting && timely else row.verdict.value.outcome == request.decision)
      && (reply == Declined(BindingChanged) <==> !echoes)
      && (reply == Declined(DifferentDecision) <==>
            echoes && !open && row.verdict.value.outcome != request.decision)
      && (reply == Declined(NoLongerAwaiting) <==> echoes && open && !waiting)
      && (reply == Declined(Expired) <==> echoes && open && waiting && !timely)
  }

  /** What each answer leaves. An accepted request's proposal is decided as it asked, by
      it if by nobody before, and a status left waiting follows; nothing else changes. */
  predicate Leaves(before: Db, after: Db, i: string, current: Option<string>, operator: string,
                   request: DecisionRequest, now: real, accepted: bool)
    requires i in before.investigations
  {
    && (accepted ==>
          && current == Some(request.proposal) && request.proposal in after.proposals
          && request.proposal in before.proposals && after.proposals[request.proposal].hash == request.hash
          && after.proposals[request.proposal].verdict.Some?
          && after.proposals[request.proposal].verdict.value.outcome == request.decision)
    && after.proposals.Keys == before.proposals.Keys
    && (forall p | p in after.proposals :: after.proposals[p] ==
          if accepted && p == request.proposal && before.proposals[p].verdict.None?
          then before.proposals[p].(verdict := Some(Verdict(now, operator, request.decision))) else before.proposals[p])
    && after.investigations.Keys == before.investigations.Keys
    && (forall k | k in after.investigations :: after.investigations[k] ==
          if accepted && k == i && before.investigations[i].status == AwaitingApproval
          then before.investigations[i].(status := if request.decision == Approve then Applying else Rejected)
          else before.investigations[k])
  }

  predicate AcceptedAs(judgement: Judgement) {
    judgement.Record? || judgement.Repeat?
  }

  lemma JudgedAsAnswered(w: World, db: Db, i: string, current: Option<string>, operator: string,
                         request: DecisionRequest, checkedAt: real, now: real)
    requires i in db.investigations && CurrentIs(db, i, current)
    ensures var judgement := JudgementOn(w, db, i, current, request, checkedAt);
            && Answers(w, db, i, current, request, checkedAt,
                       if AcceptedAs(judgement) then Accepted else Declined(judgement))
            && Leaves(db, Decided(judgement, db, i, operator, request, now), i, current, operator, request, now,
                      AcceptedAs(judgement))
            && (AcceptedAs(judgement) ==> (Concludes(judgement) <==> db.investigations[i].status == AwaitingApproval))
            && (judgement.Record? ==> Undecided(db, request.proposal))
  {
  }

  /** Sending the same decision again is accepted and changes nothing. */
  lemma DecidingAgainChangesNothing(w: World, db: Db, i: string, p: string, operator: string, again: string,
                                    request: DecisionRequest, checkedAt: real, now: real, later: real)
    requires i in db.investigations && IsCurrent(db, i, p)
    requires Concludes(JudgementOn(w, db, i, Some(p), request, checkedAt))
    ensures var judgement := JudgementOn(w, db, i, Some(p), request, checkedAt);
            var once := Decided(judgement, db, i, operator, request, now);
            && i in once.investigations && IsCurrent(once, i, p)
            && JudgementOn(w, once, i, Some(p), request, later) == Repeat(false)
            && Decided(JudgementOn(w, once, i, Some(p), request, later), once, i, again, request, later) == once
  {
  }

  /** The rest of a request after its check, with nobody in between: a decision to
      record is committed and concluded, an earlier one left waiting is concluded, and
      anything else is answered at once. */
  ghost predicate Finishes(w: World, s2: Protocol.State, s3: Protocol.State, s4: Protocol.State, d: nat, now: real) {
    if d !in s2.deciders then s3 == s2 && s4 == s2
    else if s2.deciders[d].Judged? then
      && Protocol.DecideStep(w, s2, d, Protocol.Commit(now), s3)
      && if d in s3.deciders then Protocol.DecideStep(w, s3, d, Protocol.Conclude, s4) else s4 == s3
    else s3 == s2 && Protocol.DecideStep(w, s3, d, Protocol.Conclude, s4)
  }

  /** The protocol's steps, taken one after the other with nobody in between, leave
      what the route leaves: recording, healing, repeating and declining alike. */
  lemma StepsAmountToDecide(w: World, s0: Protocol.State, s1: Protocol.State, s2: Protocol.State, s3: Protocol.State,
                            s4: Protocol.State, d: nat, i: string, operator: string, request: DecisionRequest,
                            current: Option<string>, checkedAt: real, now: real)
    requires Protocol.DecideStep(w, s0, d, Protocol.BeginDecision(i, operator, request), s1)
    requires Protocol.DecideStep(w, s1, d, Protocol.Check(current, checkedAt), s2)
    requires Finishes(w, s2, s3, s4, d, now)
    ensures i in s0.db.investigations && CurrentIs(s0.db, i, current)
    ensures var judgement := JudgementOn(w, s0.db, i, current, request, checkedAt);
            && s4.db == Decided(judgement, s0.db, i, operator, request, now)
            && s4.applies == (if request.decision == Approve && Concludes(judgement)
                              then Protocol.Schedule(s0.applies, i, Protocol.Scheduled) else s0.applies)
            && s4.deciders == s0.deciders
  {
    hide Protocol.DecideStep, Protocol.CheckStep, Protocol.CommitStep, Protocol.ConcludeStep;
    hide Judge, IsCurrent, HasProposal, SetStatus, RecordDecision, Protocol.Schedule, Undecided, Finishes;
    Began(w, s0, s1, d, i, operator, request);
    AsSteps(w, s1, s2, d, current, checkedAt);
    CheckedAs(w, s1, s2, d, current, checkedAt);
    RecordsUndecided(w, s0.db, i, current, request, checkedAt);
    FinishesAs(w, s2, s3, s4, d, now);
  }

  lemma Began(w: World, s0: Protocol.State, s1: Protocol.State, d: nat, i: string, operator: string,
              request: DecisionRequest)
    requires Protocol.DecideStep(w, s0, d, Protocol.BeginDecision(i, operator, request), s1)
    ensures i in s0.db.investigations && d !in s0.deciders
    ensures s1 == s0.(deciders := s0.deciders[d := Protocol.Read(i, operator, request,
                        s0.db.investigations[i].device, s0.db.investigations[i].status)])
  {
  }

  lemma AsSteps(w: World, s1: Protocol.State, s2: Protocol.State, d: nat, current: Option<string>, checkedAt: real)
    requires Protocol.DecideStep(w, s1, d, Protocol.Check(current, checkedAt), s2)
    ensures Protocol.CheckStep(w, s1, d, current, checkedAt, s2)
  {
    hide Protocol.CheckStep;
  }

  /** Reading and checking change no table; what comes next is what the judgement says. */
  lemma CheckedAs(w: World, s1: Protocol.State, s2: Protocol.State, d: nat, current: Option<string>, checkedAt: real)
    requires Protocol.CheckStep(w, s1, d, current, checkedAt, s2)
    requires d in s1.deciders && s1.deciders[d].Read? && s1.deciders[d].investigation in s1.db.investigations
    ensures CurrentIs(s1.db, s1.deciders[d].investigation, current)
    ensures s2 == s1.(deciders := s2.deciders, accepted := s2.accepted)
    ensures var h := s1.deciders[d];
            var proposal := if current.None? then None else Some((current.value, s1.db.proposals[current.value]));
            var judgement := Judge(w, h.investigation, h.device, h.status, proposal, h.request, checkedAt);
            s2.deciders ==
              if judgement.Record? then
                s1.deciders[d := Protocol.Judged(h.investigation, h.operator, h.request, h.status, checkedAt)]
              else if Concludes(judgement) then s1.deciders[d := Protocol.Won(h.investigation, h.request.decision)]
              else s1.deciders - {d}
  {
    hide Judge, CurrentIs;
  }

  /** What is judged fit to record is not decided yet. */
  lemma RecordsUndecided(w: World, db: Db, i: string, current: Option<string>, request: DecisionRequest,
                         checkedAt: real)
    requires i in db.investigations && CurrentIs(db, i, current)
    ensures JudgementOn(w, db, i, current, request, checkedAt).Record? ==> Undecided(db, request.proposal)
  {
  }

  lemma FinishesAs(w: World, s2: Protocol.State, s3: Protocol.State, s4: Protocol.State, d: nat, now: real)
    requires Finishes(w, s2, s3, s4, d, now) && (d in s2.deciders ==> !s2.deciders[d].Read?)
    requires d in s2.deciders && s2.deciders[d].Judged? ==> Undecided(s2.db, s2.deciders[d].request.proposal)
    ensures s4.deciders == s2.deciders - {d}
    ensures d !in s2.deciders ==> s4.db == s2.db && s4.applies == s2.applies
    ensures d in s2.deciders ==>
              var h := s2.deciders[d];
              var decision := if h.Won? then h.decision else h.request.decision;
              var recorded := if h.Won? then s2.db
                else RecordDecision(s2.db, h.request.proposal, Verdict(now, h.operator, h.request.decision));
              && s4.db == SetStatus(recorded, h.investigation, Following(decision))
              && s4.applies == (if decision == Approve
                                then Protocol.Schedule(s2.applies, h.investigation, Protocol.Scheduled) else s2.applies)
  {
    hide SetStatus, RecordDecision, Protocol.Schedule, Undecided, Protocol.CommitStep, Protocol.ConcludeStep;
    if d !in s2.deciders {
      assert s2.deciders - {d} == s2.deciders;
    } else if s2.deciders[d].Judged? {
      Committed(s2, s3, d, now);
      Concluded(s3, s4, d);
    } else {
      Concluded(s2, s4, d);
    }
  }

  lemma Committed(s2: Protocol.State, s3: Protocol.State, d: nat, now: real)
    requires Protocol.CommitStep(s2, d, now, s3) && Undecided(s2.db, s2.deciders[d].request.proposal)
    ensures var h := s2.deciders[d];
            && s3.db == RecordDecision(s2.db, h.request.proposal, Verdict(now, h.operator, h.request.decision))
            && s3.applies == s2.applies
            && s3.deciders == s2.deciders[d := Protocol.Won(h.investigation, h.request.decision)]
  {
    hide RecordDecision, Undecided;
  }

  lemma Concluded(s3: Protocol.State, s4: Protocol.State, d: nat)
    requires Protocol.ConcludeStep(s3, d, s4)
    ensures var h := s3.deciders[d];
            && s4.db == SetStatus(s3.db, h.investigation, Following(h.decision))
            && s4.applies == (if h.decision == Approve
                              then Protocol.Schedule(s3.applies, h.investigation, Protocol.Scheduled) else s3.applies)
            && s4.deciders == s3.deciders - {d}
  {
    hide SetStatus, Protocol.Schedule;
  }
}
