/** The protocol is not idle: a run from the initial state in which an approved
    repair is dispatched. */
module ProtocolWitness {
  import opened Wrappers
  import opened Tables
  import opened Approvals
  import opened Protocol

  const NAME := "fix"

  /** A catalogue in which the repair can be built, and its hash is not the empty string. */
  predicate Usable(w: World) {
    w.build(NAME, map[]).Some? && w.sha(w.build(NAME, map[]).value) != "" && Encodable(w.build(NAME, map[]).value)
  }

  function Choice(): Choice { Pick(NAME, map[], "", "") }

  function Row(w: World): ProposalRow { StoredRow(w, "i", "d", "p", Propose(w, Choice()), 0.0, 0.0) }

  function Inv(status: Status): InvestigationRow { InvestigationRow("d", "slow", "op", "r", status, CLEAN) }

  function Request(w: World): DecisionRequest { DecisionRequest("p", Row(w).hash, "d", Approve) }

  const VERDICT := Verdict(0.0, "op", Approve)

  function Up(status: Status, proposals: map<string, ProposalRow>): State {
    INITIAL.(phase := Phase.Up, db := Db(map["i" := Inv(status)], proposals))
  }

  /** A run that ends in `s`. */
  ghost predicate Reached(w: World, s: State) {
    exists states: seq<State>, events: seq<Event> :: Run(w, states, events) && states[|states| - 1] == s
  }

  lemma Extend(w: World, s: State, e: Event, s': State)
    requires Reached(w, s) && Step(w, s, e, s')
    ensures Reached(w, s')
  {
    var states, events :| Run(w, states, events) && states[|states| - 1] == s;
    hide Step;
    var more, longer := states + [s'], events + [e];
    forall k | 0 <= k < |longer| ensures Step(w, more[k], longer[k], more[k + 1]) {
    }
    assert Run(w, more, longer) && more[|more| - 1] == s';
  }

  lemma NoJobsYet()
    ensures OrphanActiveJobs(map[], 0.0) == map[]
  {
  }

  lemma NothingToRecover(db: Db)
    requires db == Db(map[], map[])
    ensures Recovered(db, db, {})
  {
    assert KeptProposals(db) == map[];
  }

  /** The process is up, with nothing to do. */
  lemma Started(w: World)
    ensures Reached(w, INITIAL.(phase := Phase.Up))
  {
    var s0, s1, s2 := INITIAL, INITIAL.(phase := Orphaned), INITIAL.(phase := Phase.Up);
    assert Run(w, [s0], []) && [s0][0] == s0;
    NoJobsYet();
    NothingToRecover(s0.db);
    hide OrphanActiveJobs, Recovered;
    Extend(w, s0, OrphanJobs(0.0), s1);
    Extend(w, s1, Recover({}), s2);
  }

  /** ... to a running diagnosis, */
  lemma Diagnosed(w: World)
    ensures Reached(w, Up(Investigating, map[]).(starts := map["i" := Diagnosing]))
  {
    Started(w);
    var s2, s3 := INITIAL.(phase := Phase.Up), Up(Queued, map[]).(starts := map["i" := Entered]);
    hide Reached, Recovered, OrphanActiveJobs;
    assert CreateInvestigation(s2.db, "i", "d", "slow", "op", "r") == s3.db;
    Extend(w, s2, Create("i", "d", "slow", "op", "r"), s3);
    var s4 := s3.(starts := map["i" := Found]);
    Extend(w, s3, StartEvent("i", Find), s4);
    Extend(w, s4, StartEvent("i", Claim), Up(Investigating, map[]).(starts := map["i" := Diagnosing]));
  }

  /** ... to a stored proposal, */
  lemma ProposalStored(w: World)
    requires Usable(w)
    ensures Reached(w, Up(Planning, map["p" := Row(w)]).(starts := map["i" := Stored(Decision.Proposed)]))
  {
    Diagnosed(w);
    hide Reached, Recovered, OrphanActiveJobs;
    var s5 := Up(Investigating, map[]).(starts := map["i" := Diagnosing]);
    var s6 := Up(Planning, map[]).(starts := map["i" := Planned]);
    Extend(w, s5, StartEvent("i", Plan), s6);
    var s7 := Up(Planning, map["p" := Row(w)]).(starts := map["i" := Stored(Decision.Proposed)]);
    Extend(w, s6, StartEvent("i", StoreProposal("p", Choice(), 0.0, 0.0)), s7);
  }

  /** ... waiting for a human, */
  lemma Waiting(w: World)
    requires Usable(w)
    ensures Reached(w, Up(AwaitingApproval, map["p" := Row(w)]))
  {
    ProposalStored(w);
    hide Reached, Recovered, OrphanActiveJobs, Row;
    var s7 := Up(Planning, map["p" := Row(w)]).(starts := map["i" := Stored(Decision.Proposed)]);
    var s8 := Up(AwaitingApproval, map["p" := Row(w)]).(starts := map["i" := Announced]);
    Extend(w, s7, StartEvent("i", Announce), s8);
    var s9 := Up(AwaitingApproval, map["p" := Row(w)]);
    assert s8.starts - {"i"} == map[];
    Extend(w, s8, StartEvent("i", Return), s9);
  }

  function Approved(w: World): ProposalRow { Row(w).(verdict := Some(VERDICT)) }

  function Log(w: World): DecisionRecord {
    DecisionRecord(Request(w), AwaitingApproval, 0.0, AwaitingApproval, VERDICT)
  }

  /** ... which is judged fit to approve, */
  lemma JudgedFitToApprove(w: World)
    requires Usable(w)
    ensures Reached(w, Up(AwaitingApproval, map["p" := Row(w)]).(
                         deciders := map[0 := Judged("i", "op", Request(w), AwaitingApproval, 0.0)]))
  {
    Waiting(w);
    JudgedFit(w);
    hide Reached, Recovered, OrphanActiveJobs, Judge, Row;
    var s9 := Up(AwaitingApproval, map["p" := Row(w)]);
    var s10 := s9.(deciders := map[0 := Read("i", "op", Request(w), "d", AwaitingApproval)]);
    Extend(w, s9, Event.DecideEvent(0, BeginDecision("i", "op", Request(w))), s10);
    var s11 := s9.(deciders := map[0 := Judged("i", "op", Request(w), AwaitingApproval, 0.0)]);
    Extend(w, s10, Event.DecideEvent(0, Check(Some("p"), 0.0)), s11);
  }

  function Ready(w: World): State {
    Up(Applying, map["p" := Approved(w)]).(accepted := [Acceptance("i", Request(w))], decisions := map["p" := Log(w)])
  }

  /** ... and approved, */
  lemma Accepted(w: World)
    requires Usable(w)
    ensures Reached(w, Ready(w).(applies := map["i" := Scheduled]))
  {
    JudgedFitToApprove(w);
    assert Row(w).verdict.None?;
    hide Reached, Recovered, OrphanActiveJobs, Row;
    var s9 := Up(AwaitingApproval, map["p" := Row(w)]);
    var s11 := s9.(deciders := map[0 := Judged("i", "op", Request(w), AwaitingApproval, 0.0)]);
    var s12 := Up(AwaitingApproval, map["p" := Approved(w)]).(
      deciders := map[0 := Won("i", Approve)], accepted := [Acceptance("i", Request(w))],
      decisions := map["p" := Log(w)]);
    Extend(w, s11, Event.DecideEvent(0, Commit(0.0)), s12);
    assert s12.deciders - {0} == map[];
    Extend(w, s12, Event.DecideEvent(0, Conclude), Ready(w).(applies := map["i" := Scheduled]));
  }

  lemma JudgedFit(w: World)
    requires Usable(w)
    ensures Judge(w, "i", "d", AwaitingApproval, Some(("p", Row(w))), Request(w), 0.0) == Judgement.Record
  {
  }

  function Repair(w: World): Script
    requires Usable(w)
  {
    w.build(NAME, map[]).value
  }

  function Sent(w: World): Post
    requires Usable(w)
  {
    Post("i", "p", "d", Repair(w), w.timeout(NAME), 0.0)
  }

  lemma AuthorizedFit(w: World)
    requires Usable(w)
    ensures Authorize(w, ProposalFromRow("d", "p", Approved(w)), Some(ApprovalFromRow("d", "p", Approved(w))), 0.0)
              == Success(Repair(w))
    ensures Approved(w).content.repair == Some(NAME)
  {
  }

  /** ... read again by its worker, */
  lemma ReadBack(w: World)
    requires Usable(w)
    ensures Reached(w, Ready(w).(applies := map["i" := Loaded("d", "p", Approved(w))]))
  {
    Accepted(w);
    hide Reached, Recovered, OrphanActiveJobs;
    var s := Ready(w);
    assert Row(w).investigation == "i";
    hide Row;
    var s13 := s.(applies := map["i" := Scheduled]);
    var s14 := s.(applies := map["i" := Active("d")]);
    Extend(w, s13, ApplyEvent("i", ReadStatus), s14);
    var s15 := s.(applies := map["i" := Loaded("d", "p", Approved(w))]);
    Extend(w, s14, ApplyEvent("i", Load(Some("p"))), s15);
  }

  /** ... posted, */
  lemma PostedOnce(w: World)
    requires Usable(w)
    ensures Reached(w, Ready(w).(applies := map["i" := Posted], posts := {Sent(w)}))
  {
    ReadBack(w);
    AuthorizedFit(w);
    hide Reached, Recovered, OrphanActiveJobs, Authorize, Row;
    var s := Ready(w);
    var s15 := s.(applies := map["i" := Loaded("d", "p", Approved(w))]);
    var s16 := s.(applies := map["i" := Authorized("d", "p", Approved(w), Repair(w), 0.0)]);
    Extend(w, s15, ApplyEvent("i", AuthorizeRepair(0.0)), s16);
    Extend(w, s16, ApplyEvent("i", PostRepair), s.(applies := map["i" := Posted], posts := {Sent(w)}));
  }

  /** ... and queued for the device: the theorems speak of runs like this one. */
  lemma RepairIsDispatched(w: World)
    requires Usable(w)
    ensures exists states: seq<State>, events: seq<Event> ::
              && Run(w, states, events)
              && states[|states| - 1].queued == [Dispatch("j", RequestFor(w, Sent(w)), Some(Sent(w)))]
  {
    PostedOnce(w);
    var request, origin := RequestFor(w, Sent(w)), Some(Sent(w));
    var s17 := Ready(w).(applies := map["i" := Posted], posts := {Sent(w)});
    assert s17.senders == map[] && s17.jobs == map[];
    var s18 := s17.(senders := map[0 := Checked(request, origin)]);
    var jobs := InsertJob(map[], "j", SpecFor(request, 0.0));
    var s19 := s17.(senders := map[0 := Inserted(request, origin, "j")], jobs := jobs);
    var s20 := s17.(jobs := jobs, queued := [Dispatch("j", request, origin)], answers := [Answer(request, "j")]);
    hide Reached, Recovered, OrphanActiveJobs, Ready, Sent, RequestFor;
    Queueing(w, s17, s18, s19, s20, request, origin);
    Unfold(w, s20);
  }

  lemma Unfold(w: World, s: State)
    requires Reached(w, s)
    ensures exists states: seq<State>, events: seq<Event> ::
              Run(w, states, events) && states[|states| - 1].queued == s.queued
  {
  }

  lemma Queueing(w: World, s17: State, s18: State, s19: State, s20: State, request: SendRequest, origin: Option<Post>)
    requires Reached(w, s17) && s17.phase == Phase.Up && s17.senders == map[] && s17.jobs == map[]
    requires s17.queued == [] && s17.answers == []
    requires origin.Some? && origin.value in s17.posts && request == RequestFor(w, origin.value)
    requires Encodable(request.script)
    requires s18 == s17.(senders := map[0 := Checked(request, origin)])
    requires s19 == s17.(senders := map[0 := Inserted(request, origin, "j")],
                         jobs := InsertJob(map[], "j", SpecFor(request, 0.0)))
    requires s20 == s17.(jobs := s19.jobs, queued := [Dispatch("j", request, origin)],
                         answers := [Answer(request, "j")])
    ensures Reached(w, s20)
  {
    hide Reached, Recovered, OrphanActiveJobs;
    Extend(w, s17, SendEvent(0, Lookup(request, origin)), s18);
    Extend(w, s18, SendEvent(0, Insert("j", 0.0)), s19);
    assert s19.senders - {0} == map[];
    Extend(w, s19, SendEvent(0, Put), s20);
  }
}
