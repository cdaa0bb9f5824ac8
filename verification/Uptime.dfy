/** Telling a reboot from a reconnection by the uptime a device reports
    (server/main.py), against what really happened to it. Times are in seconds;
    floating-point rounding is not modelled. */
module Uptime {
  import opened Wrappers

  const UPTIME_SHORTFALL_TOLERANCE_SECONDS := 120.0
  const UPTIME_DECREASE_EPSILON_SECONDS := 5.0
  const UNRELIABLE_ELAPSED_TOLERANCE_SECONDS := 900.0
  const MAX_PLAUSIBLE_UPTIME_SECONDS := 630_720_000.0     // twenty years of 365 days

  /** What a hello carries: a finite number, or anything else. */
  datatype Reported = Finite(seconds: real) | NotANumber

  function ParseReportedUptime(r: Reported): Option<real> {
    if r.Finite? && 0.0 <= r.seconds <= MAX_PLAUSIBLE_UPTIME_SECONDS then Some(r.seconds) else None
  }

  function Max(a: real, b: real): real { if a > b then a else b }

  function DetectReboot(previous: Option<real>, reported: Option<real>, elapsed: Option<real>,
                        reliable: bool): Option<bool> {
    if reported.None? || previous.None? then None
    else if reported.value < previous.value - UPTIME_DECREASE_EPSILON_SECONDS then Some(true)
    else if elapsed.None? then Some(false)
    else
      var tolerance := if reliable then UPTIME_SHORTFALL_TOLERANCE_SECONDS else UNRELIABLE_ELAPSED_TOLERANCE_SECONDS;
      Some(reported.value < previous.value + Max(0.0, elapsed.value) - tolerance)
  }

  /** The last_uptime_* columns, as one write. */
  datatype Observation = Observation(uptime: Option<real>, at: real, monotonic: real, epoch: int)

  function ElapsedSince(last: Option<Observation>, now: real, monotonicNow: real, epoch: int): (Option<real>, bool) {
    if last.Some? && last.value.epoch == epoch then (Some(Max(0.0, monotonicNow - last.value.monotonic)), true)
    else if last.None? then (None, false)
    else (Some(Max(0.0, now - last.value.at)), false)
  }

  function Judged(last: Option<Observation>, uptime: Option<real>, now: real, monotonicNow: real,
                  epoch: int): Option<bool> {
    var (elapsed, reliable) := ElapsedSince(last, now, monotonicNow, epoch);
    DetectReboot(if last.Some? then last.value.uptime else None, uptime, elapsed, reliable)
  }

  /** The device row as record_connection uses it. */
  class DeviceRow {
    var last: Option<Observation>

    constructor ()
      ensures last == None
    {
      last := None;
    }

    method RecordConnection(reported: Reported, now: real, monotonicNow: real, epoch: int)
      returns (rebooted: Option<bool>)
      modifies this
      ensures rebooted == Judged(old(last), ParseReportedUptime(reported), now, monotonicNow, epoch)
      ensures last == Some(Observation(ParseReportedUptime(reported), now, monotonicNow, epoch))
    {
      var uptime := ParseReportedUptime(reported);
      var (elapsed, reliable) := ElapsedSince(last, now, monotonicNow, epoch);
      rebooted := DetectReboot(if last.Some? then last.value.uptime else None, uptime, elapsed, reliable);
      last := Some(Observation(uptime, now, monotonicNow, epoch));
    }

    /** A device that connects again and again. */
    method RecordAll(contacts: seq<Contact>, offset: int -> real) returns (judgements: seq<Option<bool>>)
      requires last == None
      modifies this
      ensures |judgements| == |contacts|
      ensures forall k | 0 <= k < |contacts| ::
                judgements[k] == JudgementOf(if k == 0 then None else Some(contacts[k - 1]), contacts[k], offset)
    {
      judgements := [];
      for k := 0 to |contacts|
        invariant |judgements| == k
        invariant last == if k == 0 then None else Some(Observed(contacts[k - 1], offset))
        invariant forall j | 0 <= j < k ::
                    judgements[j] == JudgementOf(if j == 0 then None else Some(contacts[j - 1]), contacts[j], offset)
      {
        var c := contacts[k];
        var judged := RecordConnection(c.reported, c.wall, c.time + offset(c.epoch), c.epoch);
        assert judged == JudgementOf(if k == 0 then None else Some(contacts[k - 1]), c, offset);
        hide JudgementOf, Observed, Judged;
        judgements := judgements + [judged];
      }
    }
  }

  // ---------- what really happened ----------

  /** One connection: the true time, when the machine last booted, what it
      reported, what the wall clock said, and which process recorded it. The
      monotonic clock of process `epoch` reads `time + offset(epoch)`. */
  datatype Contact = Contact(time: real, boot: real, reported: Reported, wall: real, epoch: int)

  function Observed(c: Contact, offset: int -> real): Observation {
    Observation(ParseReportedUptime(c.reported), c.wall, c.time + offset(c.epoch), c.epoch)
  }

  function JudgementOf(before: Option<Contact>, c: Contact, offset: int -> real): Option<bool> {
    Judged(if before.Some? then Some(Observed(before.value, offset)) else None,
           ParseReportedUptime(c.reported), c.wall, c.time + offset(c.epoch), c.epoch)
  }

  /** The counter is within `e` of the time since boot. */
  predicate Honest(c: Contact, e: real) {
    c.boot <= c.time && (c.reported.Finite? ==> -e <= c.reported.seconds - (c.time - c.boot) <= e)
  }

  /** Time passes, and a boot in between is a later boot. */
  predicate Follows(a: Contact, b: Contact) {
    a.time <= b.time && (b.boot == a.boot || (a.time < b.boot <= b.time))
  }

  /** Across processes the wall clock measures the interval to within `skew`. */
  predicate Clocked(a: Contact, b: Contact, skew: real) {
    a.epoch != b.epoch ==> -skew <= (b.wall - a.wall) - (b.time - a.time) <= skew
  }

  predicate History(contacts: seq<Contact>, e: real, skew: real) {
    && (forall k | 0 <= k < |contacts| :: Honest(contacts[k], e))
    && (forall k | 0 < k < |contacts| ::
          Follows(contacts[k - 1], contacts[k]) && Clocked(contacts[k - 1], contacts[k], skew))
  }

  predicate FalseAlarm(a: Contact, b: Contact, offset: int -> real) {
    JudgementOf(Some(a), b, offset) == Some(true) && a.boot == b.boot
  }

  // ---------- never inventing a reboot ----------

  lemma NoFalseAlarmBetween(a: Contact, b: Contact, offset: int -> real, e: real, skew: real)
    requires Honest(a, e) && Honest(b, e) && Follows(a, b) && Clocked(a, b, skew)
    requires 2.0 * e <= 5.0
    requires a.epoch == b.epoch || skew + 2.0 * e <= 900.0
    ensures !FalseAlarm(a, b, offset)
  {
  }

  /** Over any history of connections, boots, process restarts and clock changes
      within the tolerances, a reported reboot is a real one. */
  lemma NoFalseAlarms(contacts: seq<Contact>, offset: int -> real, e: real, skew: real, k: nat)
    requires History(contacts, e, skew) && 0 < k < |contacts|
    requires 2.0 * e <= 5.0 && skew + 2.0 * e <= 900.0
    requires JudgementOf(Some(contacts[k - 1]), contacts[k], offset) == Some(true)
    ensures contacts[k - 1].time < contacts[k].boot <= contacts[k].time
  {
    NoFalseAlarmBetween(contacts[k - 1], contacts[k], offset, e, skew);
  }

  /** The tolerances cannot be widened: exactly these errors are safe. */
  lemma SafeExactly(e: real, skew: real, offset: int -> real)
    requires e >= 0.0 && skew >= 0.0
    ensures (forall a, b | Honest(a, e) && Honest(b, e) && Follows(a, b) && Clocked(a, b, skew) ::
             !FalseAlarm(a, b, offset))
            <==> 2.0 * e <= 5.0 && skew + 2.0 * e <= 900.0
  {
    if 2.0 * e <= 5.0 && skew + 2.0 * e <= 900.0 {
      forall a, b | Honest(a, e) && Honest(b, e) && Follows(a, b) && Clocked(a, b, skew)
        ensures !FalseAlarm(a, b, offset) {
        NoFalseAlarmBetween(a, b, offset, e, skew);
      }
    } else if 2.0 * e > 5.0 {
      var d := if e < 1000.0 then e else 1000.0;
      var a := Contact(2000.0, 0.0, Finite(2000.0 + d), 0.0, 0);
      var b := a.(reported := Finite(2000.0 - d));
      assert FalseAlarm(a, b, offset);
    } else {
      var a := Contact(100.0, 0.0, Finite(100.0 + e), 0.0, 0);
      var b := Contact(100.0, 0.0, Finite(100.0 - e), skew, 1);
      assert FalseAlarm(a, b, offset);
    }
  }

  // ---------- what can be missed ----------

  /** How far the counter may fall short of the elapsed time unnoticed. */
  function Tolerance(a: Contact, b: Contact): real {
    if a.epoch == b.epoch then 120.0 else 900.0
  }

  /** The elapsed time as measured: monotonically within a process, by the wall clock across two. */
  function Elapsed(a: Contact, b: Contact): real {
    if a.epoch == b.epoch then Max(0.0, b.time - a.time) else Max(0.0, b.wall - a.wall)
  }

  /** Exactly these readings pass for no reboot: the counter fell by no more than the
      jitter allowed, and did not fall short of the elapsed time by more than the tolerance. */
  lemma UnnoticedExactly(a: Contact, b: Contact, offset: int -> real)
    ensures JudgementOf(Some(a), b, offset) == Some(false)
            <==>
            && ParseReportedUptime(a.reported).Some? && ParseReportedUptime(b.reported).Some?
            && a.reported.seconds - b.reported.seconds <= 5.0
            && a.reported.seconds + Elapsed(a, b) - b.reported.seconds <= Tolerance(a, b)
  {
  }

  /** So a real reboot goes unnoticed only when the two boots are close together and the
      counter had not visibly fallen. Across a restart of the control plane the wall
      clock's skew comes on top. */
  lemma MissedOnlyWhenClose(contacts: seq<Contact>, offset: int -> real, e: real, skew: real, k: nat)
    requires History(contacts, e, skew) && 0 < k < |contacts|
    requires JudgementOf(Some(contacts[k - 1]), contacts[k], offset) == Some(false)
    ensures var a, b := contacts[k - 1], contacts[k];
            && b.boot - a.boot <= Tolerance(a, b) + 2.0 * e + (if a.epoch == b.epoch then 0.0 else skew)
            && b.reported.seconds >= a.reported.seconds - 5.0
  {
    var a, b := contacts[k - 1], contacts[k];
    assert Honest(a, e) && Honest(b, e) && Follows(a, b) && Clocked(a, b, skew);
    UnnoticedExactly(a, b, offset);
  }

  /** And it does go unnoticed when they are closer by the errors, and it had not. */
  lemma MissedWhenClose(contacts: seq<Contact>, offset: int -> real, e: real, skew: real, k: nat)
    requires History(contacts, e, skew) && 0 < k < |contacts|
    requires var a, b := contacts[k - 1], contacts[k];
             && ParseReportedUptime(a.reported).Some? && ParseReportedUptime(b.reported).Some?
             && b.reported.seconds >= a.reported.seconds - 5.0
             && b.boot - a.boot <= Tolerance(a, b) - 2.0 * e - (if a.epoch == b.epoch then 0.0 else skew)
    ensures JudgementOf(Some(contacts[k - 1]), contacts[k], offset) == Some(false)
  {
    var a, b := contacts[k - 1], contacts[k];
    assert Honest(a, e) && Honest(b, e) && Follows(a, b) && Clocked(a, b, skew);
    UnnoticedExactly(a, b, offset);
  }

  /** A report is believed exactly if it is a number from zero to twenty years. */
  lemma BelievedExactly(r: Reported, seconds: real)
    ensures ParseReportedUptime(r) == Some(seconds)
            <==> r == Finite(seconds) && 0.0 <= seconds <= 20.0 * 365.0 * 24.0 * 3600.0
  {
  }

  /** There is always a judgement when both contacts reported a plausible uptime, and none otherwise. */
  lemma JudgedExactly(before: Option<Contact>, c: Contact, offset: int -> real)
    ensures JudgementOf(before, c, offset).Some? <==>
              before.Some? && ParseReportedUptime(before.value.reported).Some? && ParseReportedUptime(c.reported).Some?
  {
  }
}
