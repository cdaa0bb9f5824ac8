/** The life of a job: one copy in memory, one row in SQLite (server/jobs.py,
    server/store.py). Dispatch, acceptance, results, timeouts, revocation,
    eviction and restarts all compete to move it on. */
module Jobs {
  import opened Wrappers
  import opened Tables

  /** A JobRecord's fields. It does not keep the idempotency key; the row does
      not keep the output limit. */
  datatype Job = Job(device: string, script: Script, timeout: int, maxOutputBytes: nat, createdBy: string,
                     createdAt: real, dispatchedAt: Option<real>, completedAt: Option<real>,
                     state: JobState, result: JobResult)

  function NewJob(device: string, script: Script, timeout: int, maxOutputBytes: nat, createdBy: string,
                  now: real): Job {
    Job(device, script, timeout, maxOutputBytes, createdBy, now, None, None, JobQueued, NO_RESULT)
  }

  function SpecOf(job: Job, key: Option<string>): JobSpec {
    JobSpec(job.device, job.script, job.timeout, job.createdBy, key, job.createdAt)
  }

  /** JobStore.complete on the record: the first terminal state stays. */
  function Completed(job: Job, state: JobState, result: JobResult, now: real): Job {
    if IsTerminal(job.state) then job else job.(state := state, result := result, completedAt := Some(now))
  }

  // ---------- views ----------

  datatype View = View(device: string, script: Script, state: JobState, exitCode: Option<int>, stdout: Text,
                       stderr: Text, durationMs: Option<int>, roundTripMs: Option<int>, stdoutTruncated: bool,
                       stderrTruncated: bool, error: Option<Text>, createdAt: real)

  /** Python's round: to the nearest integer, a tie to the even one. */
  function RoundHalfEven(x: real): int {
    var low := x.Floor;
    var rest := x - low as real;
    if rest < 0.5 || (rest == 0.5 && low % 2 == 0) then low else low + 1
  }

  /** The nearest integer, and of two the even one. */
  lemma RoundsToNearest(x: real, n: int)
    ensures var r := RoundHalfEven(x);
            && -0.5 <= r as real - x <= 0.5
            && (n as real - x == 0.5 || n as real - x == -0.5 ==> r % 2 == 0)
            && (-0.5 < n as real - x < 0.5 ==> n == r)
  {
    var low := x.Floor;
    assert low as real <= x < low as real + 1.0;
    assert n as real <= x + 0.5 ==> n <= low + 1;
    assert n as real >= x - 0.5 ==> n >= low;
  }

  function RoundTripMs(dispatchedAt: Option<real>, completedAt: Option<real>): Option<int> {
    if dispatchedAt.None? || completedAt.None? then None
    else
      var ms := RoundHalfEven((completedAt.value - dispatchedAt.value) * 1000.0);
      Some(if ms < 0 then 0 else ms)
  }

  function JobView(job: Job): View {
    var r := job.result;
    View(job.device, job.script, job.state, r.exitCode, r.stdout, r.stderr, r.durationMs,
         RoundTripMs(job.dispatchedAt, job.completedAt), r.stdoutTruncated, r.stderrTruncated, r.error, job.createdAt)
  }

  function RowView(row: JobRow): View {
    var r := row.result;
    View(row.spec.device, row.spec.script, row.state, r.exitCode, r.stdout, r.stderr, r.durationMs,
         RoundTripMs(row.dispatchedAt, row.completedAt), r.stdoutTruncated, r.stderrTruncated, r.error,
         row.spec.createdAt)
  }

  // ---------- both copies together ----------

  /** `issued` is every job id ever drawn; uuid4 does not repeat one. */
  datatype Copies = Copies(memory: map<string, Job>, rows: JobRows, issued: set<string>)

  const EMPTY := Copies(map[], map[], {})

  datatype Event =
    | Create(id: string, job: Job, key: Option<string>)
    | Dispatch(id: string, at: real)
    | Accept(id: string)                    // job_accepted, guarded by state Dispatched
    | Finish(id: string, state: JobState, result: JobResult, now: real, rowNow: real)
    | Evict(cutoff: real)
    | Restart(now: real)                    // the process dies; startup orphans what was in flight

  /** JobStore.create: memory first, then the row, whose insert may raise. */
  function Created(s: Copies, id: string, job: Job, key: Option<string>): Copies {
    var record := NewJob(job.device, job.script, job.timeout, job.maxOutputBytes, job.createdBy, job.createdAt);
    var spec := SpecOf(record, key);
    Copies(s.memory[id := record], if InsertAccepted(s.rows, id, spec) then InsertJob(s.rows, id, spec) else s.rows,
           s.issued + {id})
  }

  function Finished(s: Copies, id: string, state: JobState, result: JobResult, now: real, rowNow: real): Copies
    requires id in s.memory
  {
    if IsTerminal(s.memory[id].state) then s
    else s.(memory := s.memory[id := Completed(s.memory[id], state, result, now)],
            rows := if Storable(result) then CompleteJob(s.rows, id, state, result, rowNow) else s.rows)
  }

  predicate Evictable(job: Job, cutoff: real) {
    IsTerminal(job.state) && job.completedAt.Some? && job.completedAt.value < cutoff
  }

  function Remaining(memory: map<string, Job>, cutoff: real): map<string, Job> {
    map id | id in memory && !Evictable(memory[id], cutoff) :: memory[id]
  }

  function Next(s: Copies, e: Event): Copies {
    match e
    case Create(id, job, key) => if id in s.issued then s else Created(s, id, job, key)
    case Dispatch(id, at) =>          // only ever right after an insert that was accepted
      if id in s.memory && id in s.rows && s.memory[id].state == JobQueued then
        s.(memory := s.memory[id := s.memory[id].(state := Dispatched, dispatchedAt := Some(at))],
           rows := MarkDispatched(s.rows, id, at))
      else s
    case Accept(id) =>
      if id in s.memory && s.memory[id].state == Dispatched then
        s.(memory := s.memory[id := s.memory[id].(state := Running)], rows := UpdateJobState(s.rows, id, Running))
      else s
    case Finish(id, state, result, now, rowNow) =>
      if id in s.memory && IsTerminal(state) then Finished(s, id, state, result, now, rowNow) else s
    case Evict(cutoff) => s.(memory := Remaining(s.memory, cutoff))
    case Restart(now) => s.(memory := map[], rows := OrphanActiveJobs(s.rows, now))
  }

  function After(s: Copies, events: seq<Event>): Copies
    decreases |events|
  {
    if events == [] then s else After(Next(s, events[0]), events[1..])
  }

  lemma {:induction false} AfterJoin(s: Copies, events: seq<Event>, more: seq<Event>)
    ensures After(s, events + more) == After(After(s, events), more)
    decreases |events|
  {
    if events == [] {
      assert events + more == more;
    } else {
      assert (events + more)[1..] == events[1..] + more;
      AfterJoin(Next(s, events[0]), events[1..], more);
    }
  }

  /** JobStore.view: memory first, then history. */
  function ViewOf(s: Copies, id: string): Option<View> {
    if id in s.memory then Some(JobView(s.memory[id]))
    else if id in s.rows then Some(RowView(s.rows[id]))
    else None
  }

  // ---------- what always holds ----------

  /** The row of a job in memory is in the same state, or was left behind by a
      result that could not be stored. */
  predicate RowFollows(job: Job, row: JobRow) {
    row.state == job.state || (IsTerminal(job.state) && !IsTerminal(row.state))
  }

  ghost predicate Valid(s: Copies) {
    && s.memory.Keys <= s.issued && s.rows.Keys <= s.issued
    && (forall id | id in s.memory && id in s.rows :: RowFollows(s.memory[id], s.rows[id]))
    && (forall id | id in s.memory && IsTerminal(s.memory[id].state) :: s.memory[id].completedAt.Some?)
  }

  lemma NextKeepsValid(s: Copies, e: Event)
    requires Valid(s)
    ensures Valid(Next(s, e))
  {
  }

  function Rank(s: JobState): nat {
    match s
    case JobQueued => 0
    case Dispatched => 1
    case Running => 2
    case _ => 3
  }

  /** A row only moves forward, and a terminal row is never written again. */
  predicate Advances(a: JobRow, b: JobRow) {
    && b.spec == a.spec && Rank(a.state) <= Rank(b.state)
    && (IsTerminal(a.state) ==> b == a)
  }

  lemma NextAdvances(s: Copies, e: Event, id: string)
    requires Valid(s) && id in s.rows
    ensures id in Next(s, e).rows && Advances(s.rows[id], Next(s, e).rows[id])
  {
  }

  lemma {:induction false} AfterKeepsValid(s: Copies, events: seq<Event>)
    requires Valid(s)
    ensures Valid(After(s, events))
    decreases |events|
  {
    if events != [] {
      NextKeepsValid(s, events[0]);
      AfterKeepsValid(Next(s, events[0]), events[1..]);
    }
  }

  /** Over every sequence of events, process restarts included, a row is never
      deleted, never moves back, and once terminal never changes. */
  lemma {:induction false} RowsAdvance(s: Copies, events: seq<Event>, id: string)
    requires Valid(s) && id in s.rows
    ensures id in After(s, events).rows && Advances(s.rows[id], After(s, events).rows[id])
    decreases |events|
  {
    if events != [] {
      NextKeepsValid(s, events[0]);
      NextAdvances(s, events[0], id);
      RowsAdvance(Next(s, events[0]), events[1..], id);
    }
  }

  /** In memory too: a terminal job is forgotten or stays exactly as it is,
      whatever late results, acceptances and revocations follow. */
  lemma {:induction false} TerminalJobsStay(s: Copies, events: seq<Event>, id: string)
    requires Valid(s) && id in s.issued && (id in s.memory ==> IsTerminal(s.memory[id].state))
    ensures var after := After(s, events);
            id in after.memory ==> id in s.memory && after.memory[id] == s.memory[id]
    decreases |events|
  {
    if events != [] {
      NextKeepsValid(s, events[0]);
      TerminalJobsStay(Next(s, events[0]), events[1..], id);
    }
  }

  /** Startup leaves no job in flight: what was becomes Failed, what was finished is untouched. */
  lemma RestartSettlesRows(s: Copies, now: real, id: string)
    requires id in s.rows
    ensures var row := Next(s, Restart(now)).rows[id];
            && IsTerminal(row.state)
            && (if IsTerminal(s.rows[id].state) then row == s.rows[id]
                else row.state == JobFailed && row.result.error == Some(ORPHANED) && row.completedAt == Some(now))
  {
  }

  // ---------- what each event does ----------

  /** No job but this one is touched. */
  ghost predicate OnlyJob(s: Copies, t: Copies, id: string) {
    && t.issued == s.issued && t.memory.Keys == s.memory.Keys && t.rows.Keys == s.rows.Keys
    && (forall j | j in t.memory && j != id :: t.memory[j] == s.memory[j])
    && (forall j | j in t.rows && j != id :: t.rows[j] == s.rows[j])
  }

  /** The effect of every event on both copies: what it changes, in which case, and that
      it changes nothing else. */
  ghost predicate Does(s: Copies, e: Event, t: Copies) {
    match e
    case Create(id, job, key) =>
      if id in s.issued then t == s
      else
        && t.issued == s.issued + {id} && t.memory.Keys == s.memory.Keys + {id}
        && (forall j | j in s.memory && j != id :: t.memory[j] == s.memory[j])
        && t.memory[id] == job.(dispatchedAt := None, completedAt := None, state := JobQueued,
                                result := JobResult(None, [], [], None, false, false, None))
        && var spec := JobSpec(job.device, job.script, job.timeout, job.createdBy, key, job.createdAt);
           if InsertAccepted(s.rows, id, spec) then RowAdded(s.rows, t.rows, id, spec) else t.rows == s.rows
    case Dispatch(id, at) =>
      if id in s.memory && id in s.rows && s.memory[id].state == JobQueued then
        && OnlyJob(s, t, id)
        && t.memory[id] == s.memory[id].(state := Dispatched, dispatchedAt := Some(at))
        && t.rows[id] == s.rows[id].(state := Dispatched, dispatchedAt := Some(at))
      else t == s
    case Accept(id) =>
      if id in s.memory && s.memory[id].state == Dispatched then
        && OnlyJob(s, t, id) && t.memory[id] == s.memory[id].(state := Running)
        && (id in s.rows ==> t.rows[id] == s.rows[id].(state := Running))
      else t == s
    case Finish(id, state, result, now, rowNow) =>
      if id in s.memory && !IsTerminal(s.memory[id].state) && IsTerminal(state) then
        && OnlyJob(s, t, id)
        && t.memory[id] == s.memory[id].(state := state, result := result, completedAt := Some(now))
        && (if Storable(result) then RowFinished(s.rows, t.rows, id, state, result, rowNow) else t.rows == s.rows)
      else t == s
    case Evict(cutoff) =>
      && t.issued == s.issued && t.rows == s.rows
      && t.memory.Keys <= s.memory.Keys && (forall id | id in t.memory :: t.memory[id] == s.memory[id])
      && (forall id | id in s.memory ::
            var job := s.memory[id];
            id !in t.memory <==> job.state in {JobCompleted, TimedOut, Unreachable, JobFailed}
                                 && job.completedAt.Some? && job.completedAt.value < cutoff)
    case Restart(now) => t.issued == s.issued && t.memory == map[] && NoneInFlight(s.rows, t.rows, now)
  }

  lemma NextDoes(s: Copies, e: Event)
    ensures Does(s, e, Next(s, e))
  {
    match e
    case Create(id, job, key) =>
      var spec := JobSpec(job.device, job.script, job.timeout, job.createdBy, key, job.createdAt);
      if id !in s.issued && InsertAccepted(s.rows, id, spec) {
        AddedExactly(s.rows, Next(s, e).rows, id, spec);
      }
      hide InsertAccepted, RowAdded;
    case Finish(id, state, result, now, rowNow) =>
      FinishedExactly(s.rows, CompleteJob(s.rows, id, state, result, rowNow), id, state, result, rowNow);
      hide Storable;
    case Restart(now) => OrphanedExactly(s.rows, Next(s, e).rows, now);
    case _ =>
  }

  /** What is shown of a job is what its two copies hold: the result can be read back. */
  lemma ViewsShow(job: Job, row: JobRow)
    ensures var v := JobView(job);
            && (v.device, v.script, v.state, v.createdAt) == (job.device, job.script, job.state, job.createdAt)
            && JobResult(v.exitCode, v.stdout, v.stderr, v.durationMs, v.stdoutTruncated, v.stderrTruncated, v.error)
               == job.result
            && (v.roundTripMs.Some? <==> job.dispatchedAt.Some? && job.completedAt.Some?)
            && (v.roundTripMs.Some? ==> IsMilliseconds(v.roundTripMs.value,
                                                       job.completedAt.value - job.dispatchedAt.value))
    ensures var v := RowView(row);
            && (v.device, v.script, v.state, v.createdAt)
               == (row.spec.device, row.spec.script, row.state, row.spec.createdAt)
            && JobResult(v.exitCode, v.stdout, v.stderr, v.durationMs, v.stdoutTruncated, v.stderrTruncated, v.error)
               == row.result
            && (v.roundTripMs.Some? <==> row.dispatchedAt.Some? && row.completedAt.Some?)
            && (v.roundTripMs.Some? ==> IsMilliseconds(v.roundTripMs.value,
                                                       row.completedAt.value - row.dispatchedAt.value))
  {
    Milliseconds(job.dispatchedAt, job.completedAt);
    Milliseconds(row.dispatchedAt, row.completedAt);
  }

  /** Within half a millisecond, and never below zero. */
  predicate IsMilliseconds(ms: int, seconds: real) {
    ms >= 0 && if seconds <= 0.0 then ms == 0 else -0.5 <= ms as real - 1000.0 * seconds <= 0.5
  }

  lemma Milliseconds(dispatchedAt: Option<real>, completedAt: Option<real>)
    ensures RoundTripMs(dispatchedAt, completedAt).Some? <==> dispatchedAt.Some? && completedAt.Some?
    ensures dispatchedAt.Some? && completedAt.Some? ==>
              IsMilliseconds(RoundTripMs(dispatchedAt, completedAt).value, completedAt.value - dispatchedAt.value)
  {
  }

  /** Keys stay unique whatever happens. */
  lemma NextKeepsKeys(s: Copies, e: Event)
    requires KeysUnique(s.rows)
    ensures KeysUnique(Next(s, e).rows)
  {
    var after := Next(s, e).rows;
    if e.Create? && e.id !in s.issued {
      var spec := SpecOf(NewJob(e.job.device, e.job.script, e.job.timeout, e.job.maxOutputBytes, e.job.createdBy,
                                e.job.createdAt), e.key);
      if InsertAccepted(s.rows, e.id, spec) {
        AddedExactly(s.rows, after, e.id, spec);
        InsertedIsFound(s.rows, after, e.id, spec);
      }
    } else {
      hide KeysUnique;
      assert after.Keys == s.rows.Keys && forall j | j in after :: after[j].spec == s.rows[j].spec;
      SameSpecsKeepKeys(s.rows, after);
    }
  }

  lemma SameSpecsKeepKeys(before: JobRows, after: JobRows)
    requires KeysUnique(before) && after.Keys == before.Keys
    requires forall j | j in after :: after[j].spec == before[j].spec
    ensures KeysUnique(after)
  {
  }

  lemma {:induction false} AfterKeepsKeys(s: Copies, events: seq<Event>)
    requires KeysUnique(s.rows)
    ensures KeysUnique(After(s, events).rows)
    decreases |events|
  {
    if events != [] {
      NextKeepsKeys(s, events[0]);
      AfterKeepsKeys(Next(s, events[0]), events[1..]);
    }
  }

  // ---------- when the copies agree ----------

  /** Equal in everything both keep. The completion times come from two clock
      reads, so they agree only on whether there is one. */
  predicate SameJob(job: Job, row: JobRow) {
    && row == JobRow(SpecOf(job, row.spec.key), job.state, job.dispatchedAt, row.completedAt, job.result)
    && row.completedAt.Some? == job.completedAt.Some?
  }

  /** Every job in memory has its row, and every row in flight has its job. */
  ghost predicate Agree(s: Copies) {
    && (forall id | id in s.memory :: id in s.rows && SameJob(s.memory[id], s.rows[id]))
    && (forall id | id in s.rows && !IsTerminal(s.rows[id].state) :: id in s.memory)
  }

  /** The write to SQLite succeeds, or there is none. */
  predicate Kept(s: Copies, e: Event) {
    match e
    case Create(id, job, key) => id in s.issued || InsertAccepted(s.rows, id, SpecOf(job, key))
    case Finish(id, state, result, _, _) =>
      id !in s.memory || IsTerminal(s.memory[id].state) || !IsTerminal(state) || Storable(result)
    case _ => true
  }

  /** From agreement, one event preserves it exactly when its write is accepted. */
  lemma AgreementStep(s: Copies, e: Event)
    requires Valid(s) && Agree(s)
    ensures Agree(Next(s, e)) <==> Kept(s, e)
  {
    match e
    case Create(id, job, key) => if id !in s.issued { assert id in Next(s, e).memory; }
    case Finish(id, state, result, now, rowNow) => if id in s.memory { assert id in Next(s, e).memory; }
    case _ =>
  }

  ghost predicate AgreeThroughout(s: Copies, events: seq<Event>)
    decreases |events|
  {
    Agree(s) && (events == [] || AgreeThroughout(Next(s, events[0]), events[1..]))
  }

  ghost predicate KeptThroughout(s: Copies, events: seq<Event>)
    decreases |events|
  {
    events == [] || (Kept(s, events[0]) && KeptThroughout(Next(s, events[0]), events[1..]))
  }

  lemma {:induction false} KeptJoin(s: Copies, events: seq<Event>, more: seq<Event>)
    requires KeptThroughout(s, events) && KeptThroughout(After(s, events), more)
    ensures KeptThroughout(s, events + more)
    decreases |events|
  {
    if events == [] {
      assert events + more == more;
    } else {
      assert (events + more)[1..] == events[1..] + more;
      KeptJoin(Next(s, events[0]), events[1..], more);
    }
  }

  lemma OnlyOne(s: Copies, e: Event)
    ensures After(s, [e]) == Next(s, e) && (KeptThroughout(s, [e]) <==> Kept(s, e))
  {
    assert After(Next(s, e), [e][1..]) == Next(s, e);
  }

  lemma NothingYet(s: Copies)
    ensures After(s, []) == s && KeptThroughout(s, [])
  {
  }

  lemma EvictFirst(s: Copies, cutoff: real, events: seq<Event>)
    requires KeptThroughout(Next(s, Evict(cutoff)), events)
    ensures After(s, [Evict(cutoff)] + events) == After(Next(s, Evict(cutoff)), events)
    ensures KeptThroughout(s, [Evict(cutoff)] + events)
  {
    assert ([Evict(cutoff)] + events)[1..] == events;
  }

  /** Over a whole run, memory and SQLite always agree if and only if every
      insert is accepted and every result that is stored is encodable. */
  lemma {:induction false} AgreementExactly(s: Copies, events: seq<Event>)
    requires Valid(s) && Agree(s)
    ensures AgreeThroughout(s, events) <==> KeptThroughout(s, events)
    decreases |events|
  {
    if events != [] {
      AgreementStep(s, events[0]);
      NextKeepsValid(s, events[0]);
      if Kept(s, events[0]) { AgreementExactly(Next(s, events[0]), events[1..]); }
    }
  }

  /** Forgetting finished jobs changes nothing a reader sees but the round-trip figure. */
  lemma EvictionKeepsViews(s: Copies, cutoff: real, id: string)
    requires Agree(s)
    ensures var before := ViewOf(s, id);
            var after := ViewOf(Next(s, Evict(cutoff)), id);
            && before.Some? == after.Some?
            && (before.Some? ==>
                  && before.value.(roundTripMs := None) == after.value.(roundTripMs := None)
                  && before.value.roundTripMs.Some? == after.value.roundTripMs.Some?)
  {
  }

  /** A restart makes the copies agree, whatever was left behind. */
  lemma RestartAgrees(s: Copies, now: real)
    ensures Agree(Next(s, Restart(now)))
  {
  }

  // ---------- inputs on which they disagree ----------

  /** An empty idempotency key is not looked up, but the unique index holds it. */
  lemma EmptyKeyIsRefusedTwice(first: Job, second: Job)
    requires Encodable(first.script)
    ensures var s := After(EMPTY, [Create("a", first, Some("")), Create("b", second, Some(""))]);
            "a" in s.rows && "b" in s.memory && "b" !in s.rows && !Agree(s)
  {
    var one, two := Create("a", first, Some("")), Create("b", second, Some(""));
    var s := Next(EMPTY, one);
    assert [one, two][1..] == [two];
    assert After(EMPTY, [one, two]) == After(s, [two]) == Next(s, two);
    assert s.rows["a"].spec.key == Some("") && KeyTaken(s.rows, "");
    assert "b" in Next(s, two).memory;
  }

  /** A result that cannot be stored ends a job in memory only: once the job is
      evicted, it reads as it did in flight. */
  lemma UnstorableResultComesBack(s: Copies, id: string, state: JobState, result: JobResult, now: real, rowNow: real)
    requires id in s.memory && id in s.rows && !IsTerminal(s.memory[id].state) && IsTerminal(state) && !Storable(result)
    ensures var after := Next(s, Finish(id, state, result, now, rowNow));
            && ViewOf(after, id).Some? && ViewOf(after, id).value.state == state
            && ViewOf(Next(after, Evict(now + 1.0)), id) == Some(RowView(s.rows[id]))
  {
    hide Storable;
  }

  /** Such a result reaches a job that was created and dispatched: a rejection whose
      claimed script hash holds an unpaired surrogate. */
  lemma UnstorableRejectionComesBack(job: Job, claimed: Text, at: real)
    requires Encodable(job.script) && claimed != [] && claimed[0] == 0xD800
    ensures var sent := After(EMPTY, [Create("j", job, None), Dispatch("j", at)]);
            var s := Next(sent, Finish("j", JobFailed, FailedResult(Ascii("Result rejected: ") + claimed), at, at));
            var later := Next(s, Evict(at + 1.0));
            && ViewOf(s, "j").Some? && ViewOf(s, "j").value.state == JobFailed
            && ViewOf(later, "j").Some? && ViewOf(later, "j").value.state == Dispatched
  {
    var error := Ascii("Result rejected: ") + claimed;
    NotStorable(error, |Ascii("Result rejected: ")|);
    hide Storable, Ascii;
    var create, dispatch := Create("j", job, None), Dispatch("j", at);
    assert [create, dispatch][1..] == [dispatch];
    OnlyOne(Next(EMPTY, create), dispatch);
    var sent := Next(Next(EMPTY, create), dispatch);
    assert "j" in sent.memory && "j" in sent.rows && sent.rows["j"].state == sent.memory["j"].state == Dispatched;
    assert After(EMPTY, [create, dispatch]) == sent;
    hide Next, After;
    UnstorableResultComesBack(sent, "j", JobFailed, FailedResult(error), at, at);
  }

  lemma NotStorable(error: Text, k: nat)
    requires k < |error| && error[k] == 0xD800
    ensures !Storable(FailedResult(error))
  {
  }
}
