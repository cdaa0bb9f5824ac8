/** Tracked restarts (server/reboots.py), the table they live in
    (server/store.py) and what moves them on (server/main.py). */
module Reboots {
  import opened Wrappers

  datatype Status = Scheduling | Scheduled | Offline | Completed | NotRestarted | Failed

  predicate IsOpen(s: Status) { s in {Scheduling, Scheduled, Offline} }

  datatype Restart = Restart(
    device: string, requestedAt: real, delaySeconds: Option<int>, jobId: Option<string>, status: Status,
    scheduledAt: Option<real>, wentOfflineAt: Option<real>, cameBackAt: Option<real>,
    bootConfirmed: Option<bool>, pendingAfter: Option<bool>, error: Option<string>)

  const NEVER_WENT_OFFLINE_AFTER_SECONDS := 600.0
  const DID_NOT_RETURN_AFTER_SECONDS := 1800.0

  /** The fields to change. bootConfirmed may be set to NULL. */
  datatype Changes = Changes(
    jobId: Option<string>, status: Option<Status>, scheduledAt: Option<real>, wentOfflineAt: Option<real>,
    cameBackAt: Option<real>, bootConfirmed: Option<Option<bool>>, pendingAfter: Option<bool>, error: Option<string>)

  const NOTHING := Changes(None, None, None, None, None, None, None, None)

  function Or<T>(change: Option<T>, value: T): T {
    if change.Some? then change.value else value
  }

  function OrSome<T>(change: Option<T>, value: Option<T>): Option<T> {
    if change.Some? then change else value
  }

  function Apply(r: Restart, c: Changes): Restart {
    Restart(r.device, r.requestedAt, r.delaySeconds, OrSome(c.jobId, r.jobId), Or(c.status, r.status),
            OrSome(c.scheduledAt, r.scheduledAt), OrSome(c.wentOfflineAt, r.wentOfflineAt),
            OrSome(c.cameBackAt, r.cameBackAt), Or(c.bootConfirmed, r.bootConfirmed),
            OrSome(c.pendingAfter, r.pendingAfter), OrSome(c.error, r.error))
  }

  // ---------- transitions ----------

  /** `detail` is the job's state and what it said. */
  function RestartCommandFinished(r: Restart, succeeded: bool, detail: string, now: real): Changes {
    if succeeded then
      NOTHING.(scheduledAt := Some(now), status := if r.status == Scheduling then Some(Scheduled) else None)
    else if !IsOpen(r.status) then NOTHING
    else NOTHING.(status := Some(Failed), error := Some("the restart command did not run" + detail))
  }

  function WentOffline(r: Restart, now: real): Changes {
    if r.status in {Scheduling, Scheduled} && now >= r.requestedAt then
      NOTHING.(status := Some(Offline), wentOfflineAt := Some(now))
    else NOTHING
  }

  function CameBack(r: Restart, rebooted: Option<bool>, now: real): Changes {
    if !IsOpen(r.status) then NOTHING
    else if rebooted == Some(true) then
      NOTHING.(status := Some(Completed), cameBackAt := Some(now), bootConfirmed := Some(Some(true)))
    else if r.status != Offline then NOTHING
    else if rebooted == Some(false) then
      NOTHING.(status := Some(NotRestarted), cameBackAt := Some(now), bootConfirmed := Some(Some(false)),
               error := Some("it went offline but came back without having restarted; " +
                             "the restart may have been cancelled on the machine"))
    else
      NOTHING.(status := Some(Completed), cameBackAt := Some(now), bootConfirmed := Some(None),
               error := Some("back online, but a new boot could not be confirmed"))
  }

  /** A timestamp of zero is falsy in Python, and counts as absent. */
  predicate Truthy(at: Option<real>) { at.Some? && at.value != 0.0 }

  function Delay(r: Restart): real {
    if r.delaySeconds.Some? then r.delaySeconds.value as real else 0.0
  }

  function Overdue(r: Restart, now: real): Changes {
    if r.status == Scheduled && Truthy(r.scheduledAt)
       && now - r.scheduledAt.value > Delay(r) + NEVER_WENT_OFFLINE_AFTER_SECONDS then
      NOTHING.(status := Some(Failed), error := Some("the machine never went offline; " +
               "the restart may have been cancelled on the machine"))
    else if r.status == Offline && Truthy(r.wentOfflineAt)
            && now - r.wentOfflineAt.value > DID_NOT_RETURN_AFTER_SECONDS then
      NOTHING.(status := Some(Failed), error := Some("the machine did not come back within 30 minutes"))
    else NOTHING
  }

  // ---------- the table ----------

  class RestartTable {
    var restarts: map<string, Restart>

    constructor ()
      ensures restarts == map[]
    {
      restarts := map[];
    }

    method UpdateRestart(id: string, changes: Changes)
      modifies this
      ensures restarts ==
                if id in old(restarts) then old(restarts)[id := Apply(old(restarts)[id], changes)] else old(restarts)
    {
      if changes == NOTHING {
        assert id in restarts ==> Apply(restarts[id], NOTHING) == restarts[id];
        return;
      }
      if id in restarts { restarts := restarts[id := Apply(restarts[id], changes)]; }
    }

    /** The open restarts, of one device or of all. */
    method OpenRestarts(device: Option<string>) returns (ids: seq<string>)
      ensures forall id :: id in ids <==> id in restarts && Selected(restarts[id], device)
      ensures forall k, l | 0 <= k < l < |ids| :: ids[k] != ids[l]
    {
      ids := [];
      var rest := restarts.Keys;
      while rest != {}
        invariant rest <= restarts.Keys
        invariant forall id :: id in ids <==> id in restarts && id !in rest && Selected(restarts[id], device)
        invariant forall k, l | 0 <= k < l < |ids| :: ids[k] != ids[l]
        decreases |rest|
      {
        var id :| id in rest;
        rest := rest - {id};
        if Selected(restarts[id], device) { ids := ids + [id]; }
      }
    }

    /** advance_restarts_on_disconnect: exactly the device's open restarts, each by the
        transition at the time.time() read for it. */
    method AdvanceOnDisconnect(device: string, clock: string -> real)
      modifies this
      ensures restarts.Keys == old(restarts).Keys
      ensures forall id | id in restarts :: restarts[id] ==
                if Selected(old(restarts)[id], Some(device))
                then Apply(old(restarts)[id], WentOffline(old(restarts)[id], clock(id))) else old(restarts)[id]
      ensures forall id | id in restarts ::
                if old(restarts)[id].device == device then LeavesTo(old(restarts)[id], clock(id), restarts[id])
                else restarts[id] == old(restarts)[id]
    {
      var ids := OpenRestarts(Some(device));
      hide WentOffline, Apply, LeavesTo;
      for k := 0 to |ids|
        invariant restarts.Keys == old(restarts).Keys
        invariant forall j | k <= j < |ids| :: restarts[ids[j]] == old(restarts)[ids[j]]
        invariant forall j | 0 <= j < k ::
                    restarts[ids[j]] == Apply(old(restarts)[ids[j]], WentOffline(old(restarts)[ids[j]], clock(ids[j])))
        invariant forall id | id in restarts && id !in ids :: restarts[id] == old(restarts)[id]
      {
        UpdateRestart(ids[k], WentOffline(restarts[ids[k]], clock(ids[k])));
      }
      forall id | id in restarts && old(restarts)[id].device == device
        ensures LeavesTo(old(restarts)[id], clock(id), restarts[id])
      {
        LeaveBecomes(old(restarts)[id], clock(id));
      }
    }

    /** advance_restarts_on_return; `completed` are those whose pending-reboot check follows. */
    method AdvanceOnReturn(device: string, rebooted: Option<bool>, clock: string -> real)
      returns (completed: seq<string>)
      modifies this
      ensures restarts.Keys == old(restarts).Keys
      ensures forall id | id in restarts :: restarts[id] ==
                if Selected(old(restarts)[id], Some(device))
                then Apply(old(restarts)[id], CameBack(old(restarts)[id], rebooted, clock(id))) else old(restarts)[id]
      ensures forall id | id in restarts ::
                if old(restarts)[id].device == device
                  then ReturnsTo(old(restarts)[id], rebooted, clock(id), restarts[id])
                else restarts[id] == old(restarts)[id]
      ensures forall id :: id in completed <==>
                id in restarts && restarts[id].status == Completed && old(restarts)[id].status != Completed
    {
      completed := ReturnEach(device, rebooted, clock);
      hide CameBack, Apply, ReturnsTo;
      forall id | id in restarts && old(restarts)[id].device == device
        ensures ReturnsTo(old(restarts)[id], rebooted, clock(id), restarts[id])
      {
        ReturnBecomes(old(restarts)[id], rebooted, clock(id));
      }
    }

    /** The loop over the device's open restarts. */
    method ReturnEach(device: string, rebooted: Option<bool>, clock: string -> real) returns (completed: seq<string>)
      modifies this
      ensures restarts.Keys == old(restarts).Keys
      ensures forall id | id in restarts :: restarts[id] ==
                if Selected(old(restarts)[id], Some(device))
                then Apply(old(restarts)[id], CameBack(old(restarts)[id], rebooted, clock(id))) else old(restarts)[id]
      ensures forall id :: id in completed <==>
                id in restarts && restarts[id].status == Completed && old(restarts)[id].status != Completed
    {
      var ids := OpenRestarts(Some(device));
      completed := [];
      hide CameBack, Apply;
      for k := 0 to |ids|
        invariant restarts.Keys == old(restarts).Keys
        invariant forall j | k <= j < |ids| :: restarts[ids[j]] == old(restarts)[ids[j]]
        invariant forall j | 0 <= j < k ::
                    var before := old(restarts)[ids[j]];
                    restarts[ids[j]] == Apply(before, CameBack(before, rebooted, clock(ids[j])))
        invariant forall id | id in restarts && id !in ids :: restarts[id] == old(restarts)[id]
        invariant forall id :: id in completed <==> id in ids[..k] && restarts[id].status == Completed
      {
        var changes := CameBack(restarts[ids[k]], rebooted, clock(ids[k]));
        CompletesExactly(restarts[ids[k]], rebooted, clock(ids[k]));
        UpdateRestart(ids[k], changes);
        if changes.status == Some(Completed) { completed := completed + [ids[k]]; }
        assert ids[..k + 1] == ids[..k] + [ids[k]];
      }
    }

    /** One turn of watch_restarts. */
    method Watch(now: real)
      modifies this
      ensures restarts == map id | id in old(restarts) :: Apply(old(restarts)[id], Overdue(old(restarts)[id], now))
      ensures forall id | id in restarts :: WatchedTo(old(restarts)[id], now, restarts[id])
    {
      var ids := OpenRestarts(None);
      hide Overdue, Apply, WatchedTo;
      for k := 0 to |ids|
        invariant restarts.Keys == old(restarts).Keys
        invariant forall j | k <= j < |ids| :: restarts[ids[j]] == old(restarts)[ids[j]]
        invariant forall j | 0 <= j < k ::
                  restarts[ids[j]] == Apply(old(restarts)[ids[j]], Overdue(old(restarts)[ids[j]], now))
        invariant forall id | id in restarts && id !in ids :: restarts[id] == old(restarts)[id]
      {
        UpdateRestart(ids[k], Overdue(restarts[ids[k]], now));
      }
      forall id | id in restarts ensures restarts[id] == Apply(old(restarts)[id], Overdue(old(restarts)[id], now)) {
        if id in ids {
          var j :| 0 <= j < |ids| && ids[j] == id;
        } else {
          ClosedNotOverdue(restarts[id], now);
        }
      }
      forall id | id in restarts ensures WatchedTo(old(restarts)[id], now, restarts[id]) {
        WatchBecomes(old(restarts)[id], now);
      }
    }
  }

  lemma ClosedNotOverdue(r: Restart, now: real)
    requires !IsOpen(r.status)
    ensures Apply(r, Overdue(r, now)) == r
  {
  }

  lemma CompletesExactly(r: Restart, rebooted: Option<bool>, now: real)
    requires IsOpen(r.status)
    ensures Apply(r, CameBack(r, rebooted, now)).status == Completed
            <==> CameBack(r, rebooted, now).status == Some(Completed)
  {
  }

  predicate Selected(r: Restart, device: Option<string>) {
    IsOpen(r.status) && (device.Some? ==> r.device == device.value)
  }

  // ---------- one record over time ----------

  datatype Event =
    | NotSent(detail: string)           // send_to_device refused, in the same step as the insert
    | CommandFinished(succeeded: bool, detail: string, now: real)
    | Disconnected(now: real)
    | Returned(rebooted: Option<bool>, now: real)
    | Watched(now: real)
    | Linked(jobId: string)
    | CheckedAfter(pending: bool)

  function Next(r: Restart, e: Event): Restart {
    match e
    case NotSent(detail) =>
      if r.status == Scheduling then
        Apply(r, NOTHING.(status := Some(Failed), error := Some("the restart could not be sent: " + detail)))
      else r
    case CommandFinished(succeeded, detail, now) => Apply(r, RestartCommandFinished(r, succeeded, detail, now))
    case Disconnected(now) => if IsOpen(r.status) then Apply(r, WentOffline(r, now)) else r
    case Returned(rebooted, now) => if IsOpen(r.status) then Apply(r, CameBack(r, rebooted, now)) else r
    case Watched(now) => if IsOpen(r.status) then Apply(r, Overdue(r, now)) else r
    case Linked(jobId) => Apply(r, NOTHING.(jobId := Some(jobId)))
    case CheckedAfter(pending) => Apply(r, NOTHING.(pendingAfter := Some(pending)))
  }

  function After(r: Restart, events: seq<Event>): Restart
    decreases |events|
  {
    if events == [] then r else After(Next(r, events[0]), events[1..])
  }

  function Rank(s: Status): nat {
    match s
    case Scheduling => 0
    case Scheduled => 1
    case Offline => 2
    case _ => 3
  }

  /** A scheduled or offline record says since when. */
  predicate Dated(r: Restart) {
    (r.status == Scheduled ==> r.scheduledAt.Some?) && (r.status == Offline ==> r.wentOfflineAt.Some?)
  }

  function Inserted(device: string, requestedAt: real, delaySeconds: Option<int>): Restart {
    Restart(device, requestedAt, delaySeconds, None, Scheduling, None, None, None, None, None, None)
  }

  function StatusChanges(r: Restart, events: seq<Event>): nat
    decreases |events|
  {
    if events == [] then 0
    else (if Next(r, events[0]).status != r.status then 1 else 0) + StatusChanges(Next(r, events[0]), events[1..])
  }

  // ---------- what each event does ----------

  /** A return reaching a restart that went offline closes it, dated: completed, confirmed
      if judged rebooted and unconfirmed if there is no judgement, or not restarted if judged
      so. Before it went offline only a confirmed boot closes it. */
  predicate ReturnsTo(r: Restart, rebooted: Option<bool>, now: real, after: Restart) {
    match r.status
    case Offline =>
      && after.cameBackAt == Some(now) && after.bootConfirmed == rebooted
      && after.status == (if rebooted == Some(false) then NotRestarted else Completed)
      && after.error == (if rebooted == Some(true) then r.error
                         else if rebooted == Some(false) then
                           Some("it went offline but came back without having restarted; " +
                                "the restart may have been cancelled on the machine")
                         else Some("back online, but a new boot could not be confirmed"))
      && after == r.(status := after.status, cameBackAt := after.cameBackAt, bootConfirmed := after.bootConfirmed,
                     error := after.error)
    case Scheduling | Scheduled =>
      after == if rebooted == Some(true)
               then r.(status := Completed, cameBackAt := Some(now), bootConfirmed := Some(true)) else r
    case _ => after == r
  }

  /** A restart that was awaited is offline from a disconnect at or after its request on. */
  predicate LeavesTo(r: Restart, now: real, after: Restart) {
    after == if r.status in {Scheduling, Scheduled} && now >= r.requestedAt
             then r.(status := Offline, wentOfflineAt := Some(now)) else r
  }

  /** A command that ran makes the restart scheduled, dated, if that was awaited; one that
      did not run fails an open one, with the reason. */
  predicate CommandTo(r: Restart, succeeded: bool, detail: string, now: real, after: Restart) {
    if succeeded then
      after == r.(scheduledAt := Some(now), status := if r.status == Scheduling then Scheduled else r.status)
    else if r.status in {Scheduling, Scheduled, Offline} then
      after == r.(status := Failed, error := Some("the restart command did not run" + detail))
    else after == r
  }

  /** A watcher's tick fails exactly the restarts past their time: ten minutes after the
      delay for one that never went offline, half an hour for one that never came back. */
  predicate WatchedTo(r: Restart, now: real, after: Restart) {
    var delay := if r.delaySeconds.Some? then r.delaySeconds.value as real else 0.0;
    var lost := r.status == Scheduled && r.scheduledAt.Some? && r.scheduledAt.value != 0.0
                && now - r.scheduledAt.value > delay + 600.0;
    var gone := r.status == Offline && r.wentOfflineAt.Some? && r.wentOfflineAt.value != 0.0
                && now - r.wentOfflineAt.value > 1800.0;
    if lost then
      after == r.(status := Failed, error := Some("the machine never went offline; " +
                  "the restart may have been cancelled on the machine"))
    else if gone then
      after == r.(status := Failed, error := Some("the machine did not come back within 30 minutes"))
    else after == r
  }

  /** What every event makes of a record. */
  predicate Becomes(r: Restart, e: Event, after: Restart) {
    match e
    case NotSent(detail) =>
      after == (if r.status == Scheduling
                then r.(status := Failed, error := Some("the restart could not be sent: " + detail)) else r)
    case CommandFinished(succeeded, detail, now) => CommandTo(r, succeeded, detail, now, after)
    case Disconnected(now) => LeavesTo(r, now, after)
    case Returned(rebooted, now) => ReturnsTo(r, rebooted, now, after)
    case Watched(now) => WatchedTo(r, now, after)
    case Linked(jobId) => after == r.(jobId := Some(jobId))
    case CheckedAfter(pending) => after == r.(pendingAfter := Some(pending))
  }

  lemma NextBecomes(r: Restart, e: Event)
    ensures Becomes(r, e, Next(r, e))
  {
    match e
    case Returned(rebooted, now) => ReturnBecomes(r, rebooted, now);
    case Watched(now) => WatchBecomes(r, now);
    case _ =>
  }

  lemma ReturnBecomes(r: Restart, rebooted: Option<bool>, now: real)
    ensures ReturnsTo(r, rebooted, now, if IsOpen(r.status) then Apply(r, CameBack(r, rebooted, now)) else r)
  {
    if IsOpen(r.status) {
      match rebooted
      case None =>
      case Some(true) =>
      case Some(false) =>
    }
  }

  lemma LeaveBecomes(r: Restart, now: real)
    ensures LeavesTo(r, now, Apply(r, WentOffline(r, now))) && (!IsOpen(r.status) ==> LeavesTo(r, now, r))
  {
  }

  lemma WatchBecomes(r: Restart, now: real)
    ensures WatchedTo(r, now, Apply(r, Overdue(r, now)))
  {
  }

  /** One event moves the status forward or not at all, and a closed record keeps its outcome. */
  lemma NextAdvances(r: Restart, e: Event)
    ensures var next := Next(r, e);
            && Rank(next.status) <= 3
            && (next.status == r.status || Rank(r.status) < Rank(next.status))
            && (!IsOpen(r.status) ==>
                  && next.status == r.status && next.cameBackAt == r.cameBackAt
                  && next.bootConfirmed == r.bootConfirmed && next.error == r.error)
  {
  }

  /** Over every sequence of events the status only moves forward, at most three
      times, and once closed the record keeps its outcome. */
  lemma {:induction false} RecordsOnlyAdvance(r: Restart, events: seq<Event>)
    ensures var after := After(r, events);
            && Rank(r.status) <= Rank(after.status)
            && StatusChanges(r, events) <= Rank(after.status) - Rank(r.status) <= 3
            && (!IsOpen(r.status) ==>
                  && after.status == r.status && after.cameBackAt == r.cameBackAt
                  && after.bootConfirmed == r.bootConfirmed && after.error == r.error)
    decreases |events|
  {
    if events != [] {
      NextAdvances(r, events[0]);
      RecordsOnlyAdvance(Next(r, events[0]), events[1..]);
      hide Next, Rank, IsOpen;
    }
  }

  lemma NextStaysDated(r: Restart, e: Event)
    requires Dated(r)
    ensures Dated(Next(r, e))
  {
  }

  lemma {:induction false} RecordsStayDated(r: Restart, events: seq<Event>)
    requires Dated(r)
    ensures Dated(After(r, events))
    decreases |events|
  {
    if events != [] {
      NextStaysDated(r, events[0]);
      hide Next, Dated;
      RecordsStayDated(Next(r, events[0]), events[1..]);
    }
  }

  /** A return judged to be a reboot reached the record while it was open. */
  predicate Confirms(r: Restart, events: seq<Event>)
    decreases |events|
  {
    events != [] &&
    ((IsOpen(r.status) && events[0].Returned? && events[0].rebooted == Some(true))
     || Confirms(Next(r, events[0]), events[1..]))
  }

  /** A new boot is recorded exactly when such a return closed the restart. */
  lemma {:induction false} BootConfirmedExactly(r: Restart, events: seq<Event>)
    requires r.bootConfirmed != Some(true)
    ensures After(r, events).bootConfirmed == Some(true) <==> Confirms(r, events)
    ensures Confirms(r, events) ==> After(r, events).status == Completed && After(r, events).cameBackAt.Some?
    decreases |events|
  {
    if events != [] {
      var next := Next(r, events[0]);
      if next.bootConfirmed != Some(true) {
        BootConfirmedExactly(next, events[1..]);
      } else {
        RecordsOnlyAdvance(next, events[1..]);
      }
    }
  }

  /** What a record's status says about the rest of it. */
  predicate Coherent(r: Restart) {
    match r.status
    case Completed =>
      && r.cameBackAt.Some? && r.bootConfirmed != Some(false)
      && (r.bootConfirmed.None? ==> r.wentOfflineAt.Some? && r.error.Some?)
      && (r.bootConfirmed.Some? ==> r.error.None?)
    case NotRestarted => r.cameBackAt.Some? && r.wentOfflineAt.Some? && r.bootConfirmed == Some(false) && r.error.Some?
    case Failed => r.cameBackAt.None? && r.bootConfirmed.None? && r.error.Some?
    case Offline => r.wentOfflineAt.Some? && r.wentOfflineAt.value >= r.requestedAt && Untold(r)
    case Scheduled => r.scheduledAt.Some? && r.wentOfflineAt.None? && Untold(r)
    case Scheduling => r.scheduledAt.None? && r.wentOfflineAt.None? && Untold(r)
  }

  /** Nothing is said about the outcome yet. */
  predicate Untold(r: Restart) {
    r.cameBackAt.None? && r.bootConfirmed.None? && r.error.None?
  }

  lemma {:induction false} AfterStaysCoherent(r: Restart, events: seq<Event>)
    requires Coherent(r)
    ensures Coherent(After(r, events))
    decreases |events|
  {
    if events != [] {
      NextStaysCoherent(r, events[0]);
      AfterStaysCoherent(Next(r, events[0]), events[1..]);
    }
  }

  /** From insertion on, whatever happens, a record explains itself: a completed
      restart came back, confirmed or with the reason why not; one that did not
      restart went offline and came back without a boot; a failed one says why; an
      open one says nothing. */
  lemma RecordsStayCoherent(device: string, requestedAt: real, delaySeconds: Option<int>, events: seq<Event>)
    ensures Coherent(After(Inserted(device, requestedAt, delaySeconds), events))
  {
    AfterStaysCoherent(Inserted(device, requestedAt, delaySeconds), events);
  }

  lemma NextStaysCoherent(r: Restart, e: Event)
    requires Coherent(r)
    ensures Coherent(Next(r, e))
  {
    hide CameBack, Overdue;
    match e
    case Returned(rebooted, now) => if IsOpen(r.status) { CameBackCoherent(r, rebooted, now); }
    case Watched(now) => OverdueCoherent(r, now);
    case _ =>
  }

  lemma CameBackCoherent(r: Restart, rebooted: Option<bool>, now: real)
    requires Coherent(r) && IsOpen(r.status)
    ensures Coherent(Apply(r, CameBack(r, rebooted, now)))
  {
  }

  lemma OverdueCoherent(r: Restart, now: real)
    requires Coherent(r)
    ensures Coherent(Apply(r, Overdue(r, now)))
  {
  }

  predicate Stamped(r: Restart) {
    (r.scheduledAt.Some? ==> r.scheduledAt.value > 0.0) && (r.wentOfflineAt.Some? ==> r.wentOfflineAt.value > 0.0)
  }

  /** A tick of the watcher leaves no dated record past its time. */
  lemma WatcherLeavesNoneOverdue(r: Restart, now: real)
    requires Dated(r) && Stamped(r)
    ensures var after := Apply(r, Overdue(r, now));
            && (after.status == Scheduled ==>
                  now - after.scheduledAt.value <= Delay(r) + 600.0)
            && (after.status == Offline ==> now - after.wentOfflineAt.value <= 1800.0)
  {
  }

  predicate PositiveAt(e: Event) {
    match e
    case CommandFinished(_, _, now) => now > 0.0
    case Disconnected(now) => now > 0.0
    case _ => true
  }

  predicate PositiveClock(events: seq<Event>) {
    forall k | 0 <= k < |events| :: PositiveAt(events[k])
  }

  lemma NextStaysStamped(r: Restart, e: Event)
    requires Stamped(r) && PositiveAt(e)
    ensures Stamped(Next(r, e))
  {
    NextStamps(r, e);
    hide Next;
  }

  /** Only the command's end and a disconnect stamp a record, and with their own time. */
  lemma NextStamps(r: Restart, e: Event)
    ensures var next := Next(r, e);
            && (next.scheduledAt == r.scheduledAt || (e.CommandFinished? && next.scheduledAt == Some(e.now)))
            && (next.wentOfflineAt == r.wentOfflineAt || (e.Disconnected? && next.wentOfflineAt == Some(e.now)))
  {
  }

  lemma {:induction false} RecordsStayStamped(r: Restart, events: seq<Event>)
    requires Stamped(r) && PositiveClock(events)
    ensures Stamped(After(r, events))
    decreases |events|
  {
    if events != [] {
      NextStaysStamped(r, events[0]);
      hide Next, Stamped, PositiveAt;
      RecordsStayStamped(Next(r, events[0]), events[1..]);
    }
  }

  /** So from insertion on, whatever happens to a restart, the next watcher tick
      closes it unless it is within its time or was never confirmed scheduled. */
  lemma WatchedRestartsClose(device: string, requestedAt: real, delaySeconds: Option<int>, events: seq<Event>,
                             now: real)
    requires PositiveClock(events)
    ensures var r := After(Inserted(device, requestedAt, delaySeconds), events);
            var after := Next(r, Watched(now));
            || !IsOpen(after.status)
            || after.status == Scheduling
            || (after.status == Scheduled && after.scheduledAt.Some?
                && now - after.scheduledAt.value <= Delay(r) + 600.0)
            || (after.status == Offline && after.wentOfflineAt.Some? && now - after.wentOfflineAt.value <= 1800.0)
  {
    var start := Inserted(device, requestedAt, delaySeconds);
    RecordsStayDated(start, events);
    RecordsStayStamped(start, events);
    WatcherLeavesNoneOverdue(After(start, events), now);
  }
}
