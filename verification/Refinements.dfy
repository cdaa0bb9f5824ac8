/** The methods and the protocol describe one system: what a repair task and a send do,
    undisturbed, is a path of the protocol's steps, so what is proved of its runs holds
    of them. */
module Refinements {
  import opened Wrappers
  import opened Tables
  import opened Approvals
  import opened Protocol
  import Appliers
  import ControlPlane
  import Jobs
  import ProtocolWitness

  // ---------- paths ----------

  ghost predicate Path(w: World, states: seq<State>, events: seq<Event>) {
    |states| == |events| + 1 && forall k | 0 <= k < |events| :: Step(w, states[k], events[k], states[k + 1])
  }

  /** What an event's verification of a repair found, if it is one. */
  function Found(e: Event): seq<Option<bool>> {
    if e.ApplyEvent? && e.apply.Confirm? then [e.apply.verdict] else []
  }

  /** ... and those along a path. */
  function Verdicts(events: seq<Event>): seq<Option<bool>> {
    if events == [] then [] else Verdicts(events[..|events| - 1]) + Found(events[|events| - 1])
  }

  ghost predicate Leads(w: World, states: seq<State>, events: seq<Event>, s: State, t: State, seen: seq<Option<bool>>) {
    Path(w, states, events) && states[0] == s && states[|states| - 1] == t && Verdicts(events) == seen
  }

  /** A path from `s` to `t` on which the verifications found `seen`. */
  ghost predicate Reaches(w: World, s: State, t: State, seen: seq<Option<bool>>) {
    exists states: seq<State>, events: seq<Event> :: Leads(w, states, events, s, t, seen)
  }

  lemma Here(w: World, s: State)
    ensures Reaches(w, s, s, [])
  {
    assert Leads(w, [s], [], s, s, []);
  }

  lemma VerdictsSnoc(events: seq<Event>, e: Event)
    ensures Verdicts(events + [e]) == Verdicts(events) + Found(e)
  {
    hide Found;
    assert (events + [e])[..|events|] == events;
  }

  lemma PathSnoc(w: World, states: seq<State>, events: seq<Event>, e: Event, u: State)
    requires Path(w, states, events) && Step(w, states[|states| - 1], e, u)
    ensures Path(w, states + [u], events + [e])
  {
    hide Step;
  }

  lemma Onwards(w: World, s: State, t: State, seen: seq<Option<bool>>, e: Event, u: State)
    requires Reaches(w, s, t, seen) && Step(w, t, e, u)
    ensures Reaches(w, s, u, seen + Found(e))
  {
    var states, events :| Leads(w, states, events, s, t, seen);
    hide Step, Verdicts, Found;
    PathSnoc(w, states, events, e, u);
    VerdictsSnoc(events, e);
    hide Path;
    assert Leads(w, states + [u], events + [e], s, u, seen + Found(e));
  }

  /** A step that is no verification. */
  lemma Silently(w: World, s: State, t: State, seen: seq<Option<bool>>, e: Event, u: State)
    requires Reaches(w, s, t, seen) && Step(w, t, e, u) && Found(e) == []
    ensures Reaches(w, s, u, seen)
  {
    hide Reaches, Step;
    Onwards(w, s, t, seen, e, u);
    assert seen + [] == seen;
  }

  /** What is reached from a reachable state is reachable. */
  lemma {:induction false} StaysReachable(w: World, s: State, t: State, seen: seq<Option<bool>>)
    requires ProtocolWitness.Reached(w, s) && Reaches(w, s, t, seen)
    ensures ProtocolWitness.Reached(w, t)
  {
    var states, events :| Leads(w, states, events, s, t, seen);
    AlongReachable(w, states, events, |events|);
  }

  lemma {:induction false} AlongReachable(w: World, states: seq<State>, events: seq<Event>, n: nat)
    requires Path(w, states, events) && ProtocolWitness.Reached(w, states[0]) && n <= |events|
    ensures ProtocolWitness.Reached(w, states[n])
  {
    hide Step, ProtocolWitness.Reached;
    if n > 0 {
      AlongReachable(w, states, events, n - 1);
      ProtocolWitness.Extend(w, states[n - 1], events[n - 1], states[n]);
    }
  }

  // ---------- the repair task ----------

  /** The worker's post, if the task made one, as the protocol records it. */
  function PostOf(i: string, current: Option<string>, now: real, made: seq<Appliers.Effect>): set<Post> {
    if |made| >= 2 && made[1].Posted? && current.Some? then
      {Post(i, current.value, made[1].post.device, made[1].post.script, made[1].post.timeout, now)}
    else {}
  }

  /** What the task's verification found, if it came to one. */
  function VerdictsOf(made: seq<Appliers.Effect>): seq<Option<bool>> {
    if |made| == 3 && made[2].Checked? then [made[2].verdict] else []
  }

  /** A step of this task that is no verification. */
  lemma TaskStep(w: World, s: State, t: State, seen: seq<Option<bool>>, i: string, e: ApplyEvent, u: State)
    requires Reaches(w, s, t, seen) && t.phase == Up && ApplyStep(w, t, i, e, u) && !e.Confirm?
    ensures Reaches(w, s, u, seen)
  {
    hide ApplyStep, Reaches;
    Silently(w, s, t, seen, Event.ApplyEvent(i, e), u);
  }

  /** A task that cannot go on writes down why, and fails. */
  lemma TaskFails(w: World, s: State, t: State, i: string, notes: Notes, u: State)
    requires Reaches(w, s, t, []) && t.phase == Up && i in t.applies && !t.applies[i].Scheduled?
    requires u == t.(db := SetStatus(SetNotes(t.db, i, notes), i, Failed), applies := t.applies - {i})
    ensures Reaches(w, s, u, [])
  {
    hide Reaches, SetStatus, SetNotes;
    var raised := t.(applies := t.applies[i := ApplyFailing]);
    var noted := raised.(db := SetNotes(t.db, i, notes));
    TaskStep(w, s, t, [], i, RaiseError, raised);
    TaskStep(w, s, raised, [], i, Describe(notes), noted);
    assert noted.applies - {i} == t.applies - {i};
    TaskStep(w, s, noted, [], i, MarkApplyFailed, u);
  }

  /** A repair that did not run cleanly is unresolved. */
  lemma TaskEndsUnclean(w: World, s: State, t: State, i: string, notes: Notes, u: State)
    requires Reaches(w, s, t, []) && t.phase == Up && i in t.applies && t.applies[i].Posted?
    requires u == t.(db := SetStatus(SetNotes(t.db, i, notes), i, Unresolved), applies := t.applies - {i})
    ensures Reaches(w, s, u, [])
  {
    hide Reaches, SetStatus, SetNotes;
    var noted := t.(db := SetNotes(t.db, i, notes));
    TaskStep(w, s, t, [], i, Describe(notes), noted);
    TaskStep(w, s, noted, [], i, Finish, u);
  }

  /** One that did is verified, and resolved exactly if the verification says so. */
  lemma TaskEndsVerified(w: World, s: State, t: State, i: string, verdict: Option<bool>, notes: Notes, u: State)
    requires Reaches(w, s, t, []) && t.phase == Up && i in t.applies && t.applies[i].Posted?
    requires u == t.(db := SetStatus(SetNotes(t.db, i, notes), i, if verdict == Some(true) then Resolved
                                     else Unresolved),
                     applies := t.applies - {i})
    ensures Reaches(w, s, u, [verdict])
  {
    StatusOverwritten(t.db, i, Verifying, notes, if verdict == Some(true) then Resolved else Unresolved);
    hide Reaches, SetStatus, SetNotes;
    var confirming := t.(db := SetStatus(t.db, i, Verifying), applies := t.applies[i := Confirming]);
    var confirmed := confirming.(applies := confirming.applies[i := Confirmed(verdict)]);
    var noted := confirmed.(db := SetNotes(confirming.db, i, notes));
    TaskStep(w, s, t, [], i, MarkVerifying(true), confirming);
    Onwards(w, s, confirming, [], Event.ApplyEvent(i, Confirm(verdict)), confirmed);
    assert [] + [verdict] == [verdict];
    TaskStep(w, s, confirmed, [verdict], i, Describe(notes), noted);
    assert noted.applies - {i} == t.applies - {i};
    TaskStep(w, s, noted, [verdict], i, Finish, u);
  }

  lemma StatusOverwritten(db: Db, i: string, first: Status, notes: Notes, last: Status)
    ensures SetStatus(SetNotes(SetStatus(db, i, first), i, notes), i, last)
            == SetStatus(SetNotes(db, i, notes), i, last)
  {
    if i in db.investigations {
      var inv := db.investigations[i].(status := last, notes := notes);
      assert SetStatus(SetNotes(SetStatus(db, i, first), i, notes), i, last).investigations
             == db.investigations[i := inv];
      assert SetStatus(SetNotes(db, i, notes), i, last).investigations == db.investigations[i := inv];
    }
  }

  /** From scheduling to the approved row it read. */
  lemma TaskLoads(w: World, s: State, i: string, current: Option<string>, t: State)
    requires s.phase == Up && i in s.applies && s.applies[i].Scheduled? && Appliers.IsApplying(s.db, i)
    requires CurrentIs(s.db, i, current) && Appliers.IsApproved(s.db, current)
    requires t == s.(applies := s.applies[i := Loaded(s.db.investigations[i].device, current.value,
                                                      s.db.proposals[current.value])])
    ensures Reaches(w, s, t, [])
  {
    Here(w, s);
    hide Reaches, CurrentIs;
    var device := s.db.investigations[i].device;
    var active := s.(applies := s.applies[i := Active(device)]);
    TaskStep(w, s, s, [], i, ReadStatus, active);
    assert active.applies[i := Loaded(device, current.value, s.db.proposals[current.value])] == t.applies;
    TaskStep(w, s, active, [], i, Load(current), t);
  }

  /** ... and, if authorised, to its post. */
  lemma TaskPosts(w: World, s: State, t: State, i: string, script: Script, now: real, u: State)
    requires Reaches(w, s, t, []) && t.phase == Up && i in t.applies && t.applies[i].Loaded?
    requires var task := t.applies[i];
             && task.row.verdict.Some? && task.row.content.repair.Some?
             && Authorize(w, ProposalFromRow(task.device, task.id, task.row),
                          Some(ApprovalFromRow(task.device, task.id, task.row)), now) == Success(script)
             && u == t.(applies := t.applies[i := Posted],
                        posts := t.posts + {Post(i, task.id, task.device, script,
                                                 w.timeout(task.row.content.repair.value), now)})
    ensures Reaches(w, s, u, [])
  {
    hide Reaches, Authorize;
    var task := t.applies[i];
    var authorized := t.(applies := t.applies[i := Authorized(task.device, task.id, task.row, script, now)]);
    TaskStep(w, s, t, [], i, AuthorizeRepair(now), authorized);
    assert authorized.applies[i := Posted] == t.applies[i := Posted];
    TaskStep(w, s, authorized, [], i, PostRepair, u);
  }

  /** The repair task is a path of the protocol: it leaves the tables the method leaves,
      and has posted exactly what the method posted. */
  lemma TaskFollowsProtocol(w: World, s: State, enrolled: bool, i: string, current: Option<string>, now: real,
                            texts: Appliers.Texts, made: seq<Appliers.Effect>, o: Appliers.Outcome, after: Db)
    requires s.phase == Up && i in s.applies && s.applies[i].Scheduled?
    requires Appliers.Ran(w, s.db, enrolled, i, current, now, texts, made, o, after)
    ensures Reaches(w, s, s.(db := after, applies := s.applies - {i},
                             posts := s.posts + PostOf(i, current, now, made)), VerdictsOf(made))
  {
    hide Reaches, Appliers.Applied, CurrentIs, SetStatus, SetNotes, RequestFor, Authorize;
    hide Appliers.Noted, Appliers.EndStatus, Appliers.Failing;
    var end := s.(db := after, applies := s.applies - {i}, posts := s.posts + PostOf(i, current, now, made));
    if !Appliers.IsApplying(s.db, i) {
      TaskDeclines(w, s, i, end);
    } else if !enrolled || !Appliers.IsApproved(s.db, current) {
      TaskMisses(w, s, i, end);
    } else {
      TaskApplies(w, s, i, current, now, texts, made, o, end);
    }
  }

  /** The post is sent under the proposal's key. */
  lemma PostCarriesKey(w: World, db: Db, enrolled: bool, i: string, current: Option<string>, now: real,
                       texts: Appliers.Texts, made: seq<Appliers.Effect>, o: Appliers.Outcome, after: Db)
    requires Appliers.Ran(w, db, enrolled, i, current, now, texts, made, o, after)
    ensures forall p | p in PostOf(i, current, now, made) ::
              RequestFor(w, p) == SendRequest(made[1].post.device, made[1].post.script, made[1].post.timeout, w.driver,
                                              Some(made[1].post.key))
  {
    hide Authorize, CurrentIs, SetStatus, SetNotes;
  }

  lemma TaskDeclines(w: World, s: State, i: string, end: State)
    requires s.phase == Up && i in s.applies && s.applies[i].Scheduled? && !Appliers.IsApplying(s.db, i)
    requires end == s.(applies := s.applies - {i})
    ensures Reaches(w, s, end, [])
  {
    Here(w, s);
    hide Reaches;
    TaskStep(w, s, s, [], i, ReadStatus, end);
  }

  lemma TaskMisses(w: World, s: State, i: string, end: State)
    requires s.phase == Up && i in s.applies && s.applies[i].Scheduled? && Appliers.IsApplying(s.db, i)
    requires var notes := Appliers.Failing(s.db.investigations[i].notes, Appliers.MISSING);
             end == s.(db := SetStatus(SetNotes(s.db, i, notes), i, Failed), applies := s.applies - {i})
    ensures Reaches(w, s, end, [])
  {
    Here(w, s);
    hide Reaches, SetStatus, SetNotes;
    var active := s.(applies := s.applies[i := Active(s.db.investigations[i].device)]);
    TaskStep(w, s, s, [], i, ReadStatus, active);
    assert active.applies - {i} == s.applies - {i};
    TaskFails(w, s, active, i, Appliers.Failing(s.db.investigations[i].notes, Appliers.MISSING), end);
  }

  /** What a post says of the authorisation behind it. */
  lemma PostedAs(w: World, proposal: Proposal, approval: Approval, now: real, made: seq<Appliers.Effect>,
                 o: Appliers.Outcome)
    requires Appliers.Applied(w, proposal, Some(approval), now, made, o)
    ensures |made| <= 3 && (|made| < 2 ==> !o.applied)
    ensures |made| == 3 ==> made[2].Checked? && o.applied
    ensures o.resolved == Some(true) <==> |made| == 3 && made[2].verdict == Some(true)
    ensures |made| >= 2 ==>
              && approval.repair.Some? && made[1].Posted?
              && Authorize(w, proposal, Some(approval), now) == Success(made[1].post.script)
              && made[1].post.device == approval.device && made[1].post.timeout == w.timeout(approval.repair.value)
  {
    hide Authorize;
  }

  lemma TaskApplies(w: World, s: State, i: string, current: Option<string>, now: real, texts: Appliers.Texts,
                    made: seq<Appliers.Effect>, o: Appliers.Outcome, end: State)
    requires s.phase == Up && i in s.applies && s.applies[i].Scheduled? && Appliers.IsApplying(s.db, i)
    requires CurrentIs(s.db, i, current) && Appliers.IsApproved(s.db, current)
    requires var inv, row := s.db.investigations[i], s.db.proposals[current.value];
             && Appliers.Applied(w, ProposalFromRow(inv.device, current.value, row),
                                 Some(ApprovalFromRow(inv.device, current.value, row)), now, made, o)
             && end == s.(db := SetStatus(SetNotes(s.db, i, Appliers.Noted(inv.notes, o, texts)), i,
                                          Appliers.EndStatus(o)),
                          applies := s.applies - {i}, posts := s.posts + PostOf(i, current, now, made))
    ensures Reaches(w, s, end, VerdictsOf(made))
  {
    hide Reaches, CurrentIs, Authorize, SetNotes, SetStatus, Appliers.Applied, Appliers.Noted;
    var inv, row := s.db.investigations[i], s.db.proposals[current.value];
    var loaded := s.(applies := s.applies[i := Loaded(inv.device, current.value, row)]);
    TaskLoads(w, s, i, current, loaded);
    assert loaded.applies - {i} == s.applies - {i};
    TaskCarriesOn(w, s, loaded, i, now, Appliers.Noted(inv.notes, o, texts), made, o, end);
  }

  /** From the row it read to its end. */
  lemma TaskCarriesOn(w: World, s: State, t: State, i: string, now: real, notes: Notes, made: seq<Appliers.Effect>,
                      o: Appliers.Outcome, end: State)
    requires Reaches(w, s, t, []) && t.phase == Up && i in t.applies && t.applies[i].Loaded?
    requires var task := t.applies[i];
             && task.row.verdict.Some?
             && Appliers.Applied(w, ProposalFromRow(task.device, task.id, task.row),
                                 Some(ApprovalFromRow(task.device, task.id, task.row)), now, made, o)
             && end == t.(db := SetStatus(SetNotes(t.db, i, notes), i, Appliers.EndStatus(o)),
                          applies := t.applies - {i}, posts := t.posts + PostOf(i, Some(task.id), now, made))
    ensures Reaches(w, s, end, VerdictsOf(made))
  {
    var task := t.applies[i];
    PostedAs(w, ProposalFromRow(task.device, task.id, task.row), ApprovalFromRow(task.device, task.id, task.row), now,
             made, o);
    hide Reaches, Authorize, SetNotes, SetStatus, Appliers.Applied;
    if |made| < 2 {
      assert t.posts + {} == t.posts;
      TaskFails(w, s, t, i, notes, end);
    } else {
      var posted := t.(applies := t.applies[i := Posted], posts := end.posts);
      TaskPosts(w, s, t, i, made[1].post.script, now, posted);
      assert posted.applies - {i} == t.applies - {i};
      TaskConcludes(w, s, posted, i, made, notes, o, end);
    }
  }

  /** The post came back or did not, and was clean or not. */
  lemma TaskConcludes(w: World, s: State, t: State, i: string, made: seq<Appliers.Effect>, notes: Notes,
                      o: Appliers.Outcome, u: State)
    requires Reaches(w, s, t, []) && t.phase == Up && i in t.applies && t.applies[i].Posted?
    requires u == t.(db := SetStatus(SetNotes(t.db, i, notes), i, Appliers.EndStatus(o)), applies := t.applies - {i})
    requires 2 <= |made| <= 3 && (|made| == 3 ==> made[2].Checked? && o.applied)
    requires o.resolved == Some(true) <==> |made| == 3 && made[2].verdict == Some(true)
    ensures Reaches(w, s, u, VerdictsOf(made))
  {
    hide Reaches, SetStatus, SetNotes;
    if !o.applied {
      TaskFails(w, s, t, i, notes, u);
    } else if |made| == 2 {
      TaskEndsUnclean(w, s, t, i, notes, u);
    } else {
      TaskEndsVerified(w, s, t, i, made[2].verdict, notes, u);
    }
  }

  // ---------- sending ----------

  lemma SenderStep(w: World, s: State, t: State, n: nat, e: SendEvent, u: State)
    requires Reaches(w, s, t, []) && t.phase == Up && SendStep(w, t, n, e, u)
    ensures Reaches(w, s, u, [])
  {
    hide SendStep, Reaches;
    Silently(w, s, t, [], Event.SendEvent(n, e), u);
  }

  function If<T>(yes: bool, x: T): seq<T> {
    if yes then [x] else []
  }

  /** send_to_device is a path of the protocol: the rows it leaves, the message it
      queued and the job it answered with are those of the steps. */
  lemma SendFollowsProtocol(w: World, s: State, n: nat, origin: Option<Post>, r: ControlPlane.Reply,
                            before: Jobs.Copies, after: Jobs.Copies, revoked: map<string, bool>, reachable: bool,
                            device: string, script: Script, timeout: int, maxOutputBytes: nat, operator: string,
                            key: Option<string>, id: string, createdAt: real, dispatchedAt: real)
    requires s.phase == Up && n !in s.senders && before.rows == s.jobs && id !in before.issued && id !in before.rows
    requires origin.Some? ==> origin.value in s.posts
    requires origin.Some? ==> SendRequest(device, script, timeout, operator, key) == RequestFor(w, origin.value)
    requires ControlPlane.Answers(r, before.rows, revoked, reachable, device, script, timeout, operator, key)
    requires r.Sent? ==> r.job == id && ControlPlane.Launched(before, after, device, script, timeout, maxOutputBytes,
                                                              operator, key, id, createdAt, dispatchedAt)
    requires r.Raised? ==> ControlPlane.Stranded(before, after, device, script, timeout, maxOutputBytes, operator, key,
                                                 id, createdAt)
    requires !r.Sent? && !r.Raised? ==> after == before
    ensures var request := SendRequest(device, script, timeout, operator, key);
            Reaches(w, s, s.(jobs := after.rows, queued := s.queued + If(r.Sent?, Dispatch(id, request, origin)),
                             answers := s.answers + If(r.Sent?, Answer(request, id))
                                        + if r.Duplicate? then [Answer(request, r.job)] else []), [])
  {
    var request := SendRequest(device, script, timeout, operator, key);
    var end := s.(jobs := after.rows, queued := s.queued + If(r.Sent?, Dispatch(id, request, origin)),
                  answers := s.answers + If(r.Sent?, Answer(request, id))
                             + if r.Duplicate? then [Answer(request, r.job)] else []);
    if r.Duplicate? || r.Conflict? {
      assert end == s.(answers := if r.Duplicate? then s.answers + [Answer(request, r.job)] else s.answers);
      SendAnswers(w, s, n, origin, r, request, revoked, reachable, end);
    } else if r.Sent? {
      SendLaunches(w, s, n, origin, request, before, after, maxOutputBytes, id, createdAt, dispatchedAt, end);
    } else {
      if r.Raised? { StrandedRows(before, after, request, maxOutputBytes, id, createdAt); }
      assert end == s;
      Here(w, s);
    }
  }

  /** A key that was used: the row found under it decides. */
  lemma SendAnswers(w: World, s: State, n: nat, origin: Option<Post>, r: ControlPlane.Reply, request: SendRequest,
                    revoked: map<string, bool>, reachable: bool, end: State)
    requires s.phase == Up && n !in s.senders && (r.Duplicate? || r.Conflict?)
    requires origin.Some? ==> origin.value in s.posts && request == RequestFor(w, origin.value)
    requires ControlPlane.Answers(r, s.jobs, revoked, reachable, request.device, request.script, request.timeout,
                                  request.operator, request.key)
    requires end == s.(answers := if r.Duplicate? then s.answers + [Answer(request, r.job)] else s.answers)
    ensures Reaches(w, s, end, [])
  {
    Here(w, s);
    hide Reaches;
    var j :| j in s.jobs && s.jobs[j].spec.key == request.key && (r.Duplicate? ==> j == r.job);
    assert SameRequest(s.jobs[j].spec, request) <==>
           ControlPlane.IsRepeat(s.jobs[j].spec, request.device, request.script, request.timeout, request.operator);
    SenderStep(w, s, s, n, Lookup(request, origin), end);
  }

  /** What the launch did to the rows. */
  lemma LaunchedRows(before: Jobs.Copies, after: Jobs.Copies, request: SendRequest, maxOutputBytes: nat, id: string,
                     createdAt: real, dispatchedAt: real)
    requires id !in before.issued
    requires ControlPlane.Launched(before, after, request.device, request.script, request.timeout, maxOutputBytes,
                                   request.operator, request.key, id, createdAt, dispatchedAt)
    ensures InsertAccepted(before.rows, id, SpecFor(request, createdAt))
    ensures after.rows == MarkDispatched(InsertJob(before.rows, id, SpecFor(request, createdAt)), id, dispatchedAt)
  {
    hide InsertAccepted;
  }

  lemma StrandedRows(before: Jobs.Copies, after: Jobs.Copies, request: SendRequest, maxOutputBytes: nat, id: string,
                     createdAt: real)
    requires ControlPlane.Stranded(before, after, request.device, request.script, request.timeout, maxOutputBytes,
                                   request.operator, request.key, id, createdAt)
    ensures after.rows == before.rows
  {
    hide InsertAccepted;
  }

  lemma SendLaunches(w: World, s: State, n: nat, origin: Option<Post>, request: SendRequest, before: Jobs.Copies,
                     after: Jobs.Copies, maxOutputBytes: nat, id: string, createdAt: real, dispatchedAt: real,
                     end: State)
    requires s.phase == Up && n !in s.senders && before.rows == s.jobs && id !in before.issued
    requires origin.Some? ==> origin.value in s.posts && request == RequestFor(w, origin.value)
    requires !ControlPlane.Reused(s.jobs, request.key)
    requires ControlPlane.Launched(before, after, request.device, request.script, request.timeout, maxOutputBytes,
                                   request.operator, request.key, id, createdAt, dispatchedAt)
    requires end == s.(jobs := after.rows, queued := s.queued + [Dispatch(id, request, origin)],
                       answers := s.answers + [Answer(request, id)])
    ensures Reaches(w, s, end, [])
  {
    LaunchedRows(before, after, request, maxOutputBytes, id, createdAt, dispatchedAt);
    var jobs := InsertJob(s.jobs, id, SpecFor(request, createdAt));
    assert after.rows == jobs[id := jobs[id].(state := Dispatched, dispatchedAt := Some(dispatchedAt))];
    hide ControlPlane.Launched;
    SendInserts(w, s, n, origin, request, id, createdAt);
    SendPuts(w, s, n, origin, request, id, jobs, after.rows, end);
  }

  lemma SendInserts(w: World, s: State, n: nat, origin: Option<Post>, request: SendRequest, id: string, createdAt: real)
    requires s.phase == Up && n !in s.senders && !ControlPlane.Reused(s.jobs, request.key)
    requires origin.Some? ==> origin.value in s.posts && request == RequestFor(w, origin.value)
    requires InsertAccepted(s.jobs, id, SpecFor(request, createdAt))
    ensures Reaches(w, s, s.(jobs := InsertJob(s.jobs, id, SpecFor(request, createdAt)),
                             senders := s.senders[n := Inserted(request, origin, id)]), [])
  {
    Here(w, s);
    hide Reaches, InsertAccepted, KeyTaken;
    var checked := s.(senders := s.senders[n := Checked(request, origin)]);
    SenderStep(w, s, s, n, Lookup(request, origin), checked);
    var inserted := s.(jobs := InsertJob(s.jobs, id, SpecFor(request, createdAt)),
                       senders := s.senders[n := Inserted(request, origin, id)]);
    assert checked.senders[n := Inserted(request, origin, id)] == inserted.senders;
    SenderStep(w, s, checked, n, SendEvent.Insert(id, createdAt), inserted);
  }

  lemma SendPuts(w: World, s: State, n: nat, origin: Option<Post>, request: SendRequest, id: string, jobs: JobRows,
                 rows: JobRows, end: State)
    requires s.phase == Up && n !in s.senders && id in jobs && id in rows && rows[id].spec == jobs[id].spec
    requires rows == jobs[id := rows[id]]
    requires Reaches(w, s, s.(jobs := jobs, senders := s.senders[n := Inserted(request, origin, id)]), [])
    requires end == s.(jobs := rows, queued := s.queued + [Dispatch(id, request, origin)],
                       answers := s.answers + [Answer(request, id)])
    ensures Reaches(w, s, end, [])
  {
    hide Reaches;
    var inserted := s.(jobs := jobs, senders := s.senders[n := Inserted(request, origin, id)]);
    var marked := inserted.(jobs := rows);
    Silently(w, s, inserted, [], JobProgress(id, rows[id]), marked);
    assert marked.senders - {n} == s.senders;
    SenderStep(w, s, marked, n, SendEvent.Put, end);
  }
}
