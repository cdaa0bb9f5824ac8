/** What a confirmed restart means on the machine. A reconnection is judged by its
    uptime and then moves the device's open restarts on (server/main.py); here the
    two run together along one device's timeline. */
module RestartTruth {
  import opened Wrappers
  import opened Reboots
  import Uptime

  /** What happens to a device while a restart record is followed. `at` is the clock
      read for the record, after the connection was judged. */
  datatype Moment =
    | Connected(contact: Uptime.Contact, at: real)
    | Meanwhile(event: Event)

  /** Returns are connections, and nothing else. */
  predicate Timeline(moments: seq<Moment>) {
    forall k | 0 <= k < |moments| && moments[k].Meanwhile? :: !moments[k].event.Returned?
  }

  function Seen(last: Uptime.Contact, m: Moment): Uptime.Contact {
    if m.Connected? then m.contact else last
  }

  /** What the record is told, given the connection before. */
  function Told(last: Uptime.Contact, m: Moment, offset: int -> real): Event {
    match m
    case Connected(c, at) => Returned(Uptime.JudgementOf(Some(last), c, offset), at)
    case Meanwhile(e) => e
  }

  function Events(last: Uptime.Contact, moments: seq<Moment>, offset: int -> real): (events: seq<Event>)
    ensures |events| == |moments|
    decreases |moments|
  {
    if moments == [] then []
    else [Told(last, moments[0], offset)] + Events(Seen(last, moments[0]), moments[1..], offset)
  }

  /** The connections of the timeline, after the one before it. */
  function Contacts(last: Uptime.Contact, moments: seq<Moment>): (contacts: seq<Uptime.Contact>)
    ensures |contacts| >= 1 && contacts[0] == last
    decreases |moments|
  {
    if moments == [] then [last]
    else if moments[0].Connected? then [last] + Contacts(moments[0].contact, moments[1..])
    else Contacts(last, moments[1..])
  }

  /** record_connection and then advance_restarts_on_return: each open restart of the
      device is told the judgement of this very connection. */
  method Reconnect(row: Uptime.DeviceRow, table: RestartTable, device: string, reported: Uptime.Reported, now: real,
                   monotonicNow: real, epoch: int, clock: string -> real) returns (completed: seq<string>)
    modifies row, table
    ensures row.last == Some(Uptime.Observation(Uptime.ParseReportedUptime(reported), now, monotonicNow, epoch))
    ensures table.restarts.Keys == old(table.restarts).Keys
    ensures var uptime := Uptime.ParseReportedUptime(reported);
            var rebooted := Uptime.Judged(old(row.last), uptime, now, monotonicNow, epoch);
            forall id | id in table.restarts :: table.restarts[id] ==
              if Selected(old(table.restarts)[id], Some(device))
              then Next(old(table.restarts)[id], Returned(rebooted, clock(id))) else old(table.restarts)[id]
  {
    hide Uptime.Judged;
    var rebooted := row.RecordConnection(reported, now, monotonicNow, epoch);
    hide Apply, CameBack;
    completed := table.AdvanceOnReturn(device, rebooted, clock);
  }

  // ---------- the return that closed the record ----------

  /** The event that confirmed a restart found it open and set when it came back. */
  lemma {:induction false} ConfirmingReturn(r: Restart, events: seq<Event>) returns (j: nat)
    requires Confirms(r, events)
    ensures j < |events| && events[j].Returned? && events[j].rebooted == Some(true)
    ensures IsOpen(After(r, events[..j]).status)
    ensures var after := After(r, events);
            after.status == Completed && after.cameBackAt == Some(events[j].now)
    decreases |events|
  {
    if IsOpen(r.status) && events[0].Returned? && events[0].rebooted == Some(true) {
      j := 0;
      RecordsOnlyAdvance(Next(r, events[0]), events[1..]);
    } else {
      var k := ConfirmingReturn(Next(r, events[0]), events[1..]);
      j := k + 1;
      assert events[..j][0] == events[0] && events[..j][1..] == events[1..][..k];
    }
  }

  /** The j-th moment, if a connection, is the connection after the one its event was
      judged against. */
  lemma {:induction false} ContactOf(last: Uptime.Contact, moments: seq<Moment>, offset: int -> real, j: nat)
    returns (k: nat)
    requires j < |moments| && moments[j].Connected?
    ensures var contacts := Contacts(last, moments);
            && 0 < k < |contacts| && contacts[k] == moments[j].contact
            && Events(last, moments, offset)[j]
               == Returned(Uptime.JudgementOf(Some(contacts[k - 1]), contacts[k], offset), moments[j].at)
    decreases |moments|
  {
    if j == 0 {
      k := 1;
    } else {
      var n := ContactOf(Seen(last, moments[0]), moments[1..], offset, j - 1);
      k := if moments[0].Connected? then n + 1 else n;
    }
  }

  lemma {:induction false} EventAt(last: Uptime.Contact, moments: seq<Moment>, offset: int -> real, j: nat)
    requires j < |moments| && moments[j].Meanwhile?
    ensures Events(last, moments, offset)[j] == moments[j].event
    decreases |moments|
  {
    if j > 0 { EventAt(Seen(last, moments[0]), moments[1..], offset, j - 1); }
  }

  // ---------- when it was asked for ----------

  /** The restart was asked for between the first of these connections and the others;
      `heard` is when the device was last heard from, in the boot of that connection. */
  predicate AskedAt(contacts: seq<Uptime.Contact>, requested: real, heard: real)
    requires contacts != []
  {
    && contacts[0].time <= heard <= requested
    && (|contacts| > 1 ==> contacts[1].boot == contacts[0].boot || heard < contacts[1].boot)
    && forall k | 0 < k < |contacts| :: requested <= contacts[k].time
  }

  /** A restart recorded with a confirmed new boot had one. The return that closed the
      record found it open and set when it came back; the machine booted between the
      connection before that return and the return, and after it was last heard from
      when the restart was asked for: less than 30 s before the request, if the device
      was reachable then. */
  lemma ConfirmedRestartBooted(device: string, requestedAt: real, delaySeconds: Option<int>, last: Uptime.Contact,
                               moments: seq<Moment>, offset: int -> real, requested: real, heard: real,
                               e: real, skew: real) returns (j: nat, k: nat)
    requires Timeline(moments) && Uptime.History(Contacts(last, moments), e, skew)
    requires 2.0 * e <= 5.0
    requires skew + 2.0 * e <= 900.0
    requires AskedAt(Contacts(last, moments), requested, heard)
    requires var events := Events(last, moments, offset);
             After(Inserted(device, requestedAt, delaySeconds), events).bootConfirmed == Some(true)
    ensures var start := Inserted(device, requestedAt, delaySeconds);
            var events, contacts := Events(last, moments, offset), Contacts(last, moments);
            && j < |moments| && moments[j].Connected?
            && 0 < k < |contacts| && contacts[k] == moments[j].contact
            && IsOpen(After(start, events[..j]).status)
            && After(start, events).status == Completed && After(start, events).cameBackAt == Some(moments[j].at)
            && contacts[k - 1].time < contacts[k].boot <= contacts[k].time
            && heard < contacts[k].boot
            && (requested - heard < 30.0 ==>
                  requested - 30.0 < contacts[k].boot)
  {
    var start := Inserted(device, requestedAt, delaySeconds);
    var events, contacts := Events(last, moments, offset), Contacts(last, moments);
    BootConfirmedExactly(start, events);
    j := ConfirmingReturn(start, events);
    if moments[j].Meanwhile? { EventAt(last, moments, offset, j); }
    k := ContactOf(last, moments, offset, j);
    Uptime.NoFalseAlarms(contacts, offset, e, skew, k);
    assert Uptime.Honest(contacts[0], e);
  }

  /** The 30 s are needed: a machine that had just gone down of its own accord, and was
      not yet missed, is asked to restart, and its return confirms a boot that came
      before the request. */
  lemma BootMayPrecedeRequest(device: string, delaySeconds: Option<int>, offset: int -> real)
    ensures var last := Uptime.Contact(100.0, 0.0, Uptime.Finite(100.0), 100.0, 0);
            var back := Uptime.Contact(1030.0, 1010.0, Uptime.Finite(20.0), 1030.0, 0);
            var moments := [Connected(back, 1030.0)];
            && Timeline(moments) && Uptime.History(Contacts(last, moments), 0.0, 0.0)
            && AskedAt(Contacts(last, moments), 1020.0, 1000.0)
            && After(Inserted(device, 1020.0, delaySeconds), Events(last, moments, offset)).bootConfirmed == Some(true)
            && back.boot < 1020.0 < 1000.0 + 30.0
  {
    var last := Uptime.Contact(100.0, 0.0, Uptime.Finite(100.0), 100.0, 0);
    var back := Uptime.Contact(1030.0, 1010.0, Uptime.Finite(20.0), 1030.0, 0);
    var moments := [Connected(back, 1030.0)];
    assert Contacts(last, moments) == [last, back];
    var told := Told(last, moments[0], offset);
    assert Events(last, moments, offset) == [told] && told == Returned(Some(true), 1030.0);
  }
}
