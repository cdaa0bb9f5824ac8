/** The handlers that move jobs: sending, accepting, results, the supervisor and
    revocation (server/main.py). Each runs to completion between two awaits. */
module ControlPlane {
  import opened Wrappers
  import opened Tables
  import opened Jobs
  import opened Stores
  import opened JobStores
  import opened Registry
  import opened LimitOutput
  import Decimal
  import Unicode

  const TIMEOUT_GRACE_SECONDS := 5.0
  const FINISHED_JOB_RETENTION_SECONDS := 60.0

  // ---------- what the supervisor decides ----------

  const NOT_REACHABLE := Ascii("Device is not reachable.")
  const REVOKED := Ascii("Device was revoked before the job completed.")

  function NoResult(timeout: int): Text {
    Ascii("No result within " + Decimal.Str(timeout) + "s.")
  }

  /** dispatched_at or created_at: a zero timestamp is falsy. */
  function Started(job: Job): real {
    if job.dispatchedAt.Some? && job.dispatchedAt.value != 0.0 then job.dispatchedAt.value else job.createdAt
  }

  predicate IsOverdue(job: Job, now: real) {
    now - Started(job) > job.timeout as real + TIMEOUT_GRACE_SECONDS
  }

  /** What a supervisor tick does to one active job, if anything. */
  function Ending(job: Job, reachable: bool, now: real): Option<(JobState, Text)> {
    if !reachable then Some((JobState.Unreachable, NOT_REACHABLE))
    else if IsOverdue(job, now) then Some((TimedOut, NoResult(job.timeout)))
    else None
  }

  function Supervised(job: Job, reachable: bool, now: real, at: real): Job {
    var ending := Ending(job, reachable, now);
    if ending.None? then job else Jobs.Completed(job, ending.value.0, FailedResult(ending.value.1), at)
  }

  /** What revoking a device does to one job, and to all. */
  function RevokedOne(job: Job, device: string, at: real): Job {
    if job.device == device then Jobs.Completed(job, JobState.Unreachable, FailedResult(REVOKED), at) else job
  }

  function RevokedAll(memory: map<string, Job>, device: string, at: string -> real): map<string, Job> {
    map id | id in memory :: RevokedOne(memory[id], device, at(id))
  }

  lemma RevokedIsStorable()
    ensures Storable(FailedResult(REVOKED))
  {
    AsciiIsEncodable("Device was revoked before the job completed.");
  }

  /** When the clocks were read for one job: the connection's check, the record's
      completion and the row's. */
  datatype Clocks = Clocks(monotonic: real, at: real, rowAt: real)

  /** All of them. */
  function SupervisedAll(memory: map<string, Job>, connections: map<string, Liveness>, now: real,
                         clocks: string -> Clocks): map<string, Job> {
    map id | id in memory ::
      Supervised(memory[id], Live(connections, memory[id].device, clocks(id).monotonic), now, clocks(id).at)
  }

  /** After a tick every job still active has a reachable device and is within its time. */
  lemma ActiveAfterTick(memory: map<string, Job>, connections: map<string, Liveness>, now: real,
                        clocks: string -> Clocks, id: string)
    requires id in memory
    ensures var after := SupervisedAll(memory, connections, now, clocks)[id];
            if IsTerminal(after.state) then IsTerminal(memory[id].state) ==> after == memory[id]
            else
              && after == memory[id] && Live(connections, after.device, clocks(id).monotonic)
              && now - Started(after) <= after.timeout as real + TIMEOUT_GRACE_SECONDS
  {
  }

  lemma AsciiIsEncodable(s: string)
    ensures Encodable(Ascii(s))
  {
  }

  lemma KeptCreate(s: Copies, id: string, device: string, script: Script, timeout: int, maxOutputBytes: nat,
                   operator: string, key: Option<string>, now: real)
    requires id !in s.issued
    ensures Kept(s, Create(id, NewJob(device, script, timeout, maxOutputBytes, operator, now), key))
            <==> InsertAccepted(s.rows, id, JobSpec(device, script, timeout, operator, key, now))
  {
  }

  /** The job was created, stored and marked dispatched. */
  ghost predicate Launched(before: Copies, after: Copies, device: string, script: Script, timeout: int,
                           maxOutputBytes: nat, operator: string, key: Option<string>, id: string,
                           createdAt: real, dispatchedAt: real) {
    var create := Create(id, NewJob(device, script, timeout, maxOutputBytes, operator, createdAt), key);
    Kept(before, create) && after == Next(Next(before, create), Dispatch(id, dispatchedAt))
  }

  /** The insert was refused after the record was put in memory. */
  ghost predicate Stranded(before: Copies, after: Copies, device: string, script: Script, timeout: int,
                           maxOutputBytes: nat, operator: string, key: Option<string>, id: string, createdAt: real) {
    var create := Create(id, NewJob(device, script, timeout, maxOutputBytes, operator, createdAt), key);
    !Kept(before, create) && after == Next(before, create)
  }

  /** Of a request whose key was not found, whether it is stored. */
  lemma LaunchedExactly(before: Copies, after: Copies, device: string, script: Script, timeout: int,
                        maxOutputBytes: nat, operator: string, key: Option<string>, id: string,
                        createdAt: real, dispatchedAt: real)
    requires id !in before.issued && id !in before.rows && !Reused(before.rows, key)
    ensures Launched(before, after, device, script, timeout, maxOutputBytes, operator, key, id, createdAt, dispatchedAt)
            ==> Encodable(script) && !(key == Some("") && KeyTaken(before.rows, ""))
    ensures Stranded(before, after, device, script, timeout, maxOutputBytes, operator, key, id, createdAt)
            ==> !Encodable(script) || (key == Some("") && KeyTaken(before.rows, ""))
  {
    KeptCreate(before, id, device, script, timeout, maxOutputBytes, operator, key, createdAt);
    AcceptedExactly(before.rows, id, JobSpec(device, script, timeout, operator, key, createdAt));
    hide Next, Kept, InsertAccepted, Encodable, KeyTaken;
  }

  /** Same device, script, timeout and operator: the output limit is not stored. */
  predicate IsRepeat(spec: JobSpec, device: string, script: Script, timeout: int, operator: string) {
    (spec.device, spec.script, spec.timeout, spec.createdBy) == (device, script, timeout, operator)
  }

  datatype Reply =
    | Sent(job: string) | Duplicate(job: string) | Conflict | NotEnrolled | IsRevoked | NotReachable
    | Raised                    // the insert was refused: no answer but an internal error

  /** The key is looked up and found. */
  predicate Reused(rows: JobRows, key: Option<string>) {
    key.Some? && key.value != "" && KeyTaken(rows, key.value)
  }

  ghost predicate Repeats(rows: JobRows, device: string, script: Script, timeout: int, operator: string,
                          key: Option<string>) {
    exists j :: j in rows && rows[j].spec.key == key && IsRepeat(rows[j].spec, device, script, timeout, operator)
  }

  /** Exactly when send_to_device gives each answer. A key stands for the one request it
      was first used for; otherwise an enrolled, unrevoked, reachable device is sent the job. */
  ghost predicate Answers(r: Reply, rows: JobRows, revoked: map<string, bool>, reachable: bool, device: string,
                          script: Script, timeout: int, operator: string, key: Option<string>) {
    var repeats := Repeats(rows, device, script, timeout, operator, key);
    && (r.Duplicate? <==> Reused(rows, key) && repeats)
    && (r.Duplicate? ==> r.job in rows && rows[r.job].spec.key == key
                         && IsRepeat(rows[r.job].spec, device, script, timeout, operator))
    && (r.Conflict? <==> Reused(rows, key) && !repeats)
    && (r.NotEnrolled? <==> !Reused(rows, key) && device !in revoked)
    && (r.IsRevoked? <==> !Reused(rows, key) && device in revoked && revoked[device])
    && (r.NotReachable? <==> !Reused(rows, key) && device in revoked && !revoked[device] && !reachable)
    && (r.Sent? || r.Raised? <==> !Reused(rows, key) && device in revoked && !revoked[device] && reachable)
  }

  /** The row a lookup finds decides whether the request is a repeat. */
  lemma OneEarlier(rows: JobRows, j: string, device: string, script: Script, timeout: int, operator: string)
    requires KeysUnique(rows) && j in rows && rows[j].spec.key.Some?
    ensures Repeats(rows, device, script, timeout, operator, rows[j].spec.key)
            <==> IsRepeat(rows[j].spec, device, script, timeout, operator)
  {
  }

  /** Whether the insert of a request whose key was not found goes through. */
  lemma AcceptedExactly(rows: JobRows, id: string, spec: JobSpec)
    requires id !in rows && !Reused(rows, spec.key)
    ensures InsertAccepted(rows, id, spec)
            <==> Encodable(spec.script) && !(spec.key == Some("") && KeyTaken(rows, ""))
  {
  }

  /** A parsed, verified result, or why it was rejected. Parsing leaves no surrogate. */
  datatype Verdict =
    | Verified(state: JobState, exitCode: Option<int>, durationMs: int, streams: map<Stream, Captured>,
               error: Option<seq<Unicode.Scalar>>)
    | Rejected(reason: Text)

  /** What a connected device sends: a heartbeat and anything unknown are `Other`. */
  datatype Incoming = Accepted(id: string) | Result(id: string, verdict: Verdict) | Other

  /** What is stored of a result. */
  function Stored(v: Verdict, limit: nat): (JobState, JobResult)
    requires v.Verified? ==> IsTerminal(v.state) && Stdout in v.streams && Stderr in v.streams
  {
    match v
    case Rejected(reason) => (JobFailed, FailedResult(Ascii("Result rejected: ") + reason))
    case Verified(state, exitCode, durationMs, streams, error) =>
      var out, err := Limited(streams[Stdout], limit), Limited(streams[Stderr], limit);
      (state, JobResult(exitCode, out.text, err.text, Some(durationMs), out.truncated, err.truncated, error))
  }

  // ---------- what the handlers promise, in their own terms ----------

  /** What a result makes of its job. A verified one is stored as sent, each stream held to
      the limit under its own name; a rejected one fails the job and says why. */
  ghost predicate ReportedAs(v: Verdict, limit: nat, state: JobState, r: JobResult)
    requires v.Verified? ==> Stdout in v.streams && Stderr in v.streams
  {
    match v
    case Verified(sent, exitCode, durationMs, streams, error) =>
      && state == sent && r.exitCode == exitCode && r.durationMs == Some(durationMs) && r.error == error
      && HeldTo(streams[Stdout], limit, |r.stdout|, r.stdoutTruncated)
      && r.stdout == streams[Stdout].text[..|r.stdout|]
      && HeldTo(streams[Stderr], limit, |r.stderr|, r.stderrTruncated)
      && r.stderr == streams[Stderr].text[..|r.stderr|]
    case Rejected(reason) =>
      state == JobFailed
      && r == JobResult(None, [], [], None, false, false, Some(Ascii("Result rejected: ") + reason))
  }

  lemma StoredIsReported(v: Verdict, limit: nat)
    requires v.Verified? ==> IsTerminal(v.state) && Stdout in v.streams && Stderr in v.streams
    ensures var (state, r) := Stored(v, limit); IsTerminal(state) && ReportedAs(v, limit, state, r)
  {
    if v.Verified? {
      LimitedIsHeld(v.streams[Stdout], limit);
      LimitedIsHeld(v.streams[Stderr], limit);
      hide HeldTo, Limited;
    }
  }

  /** Both copies after a result for this job: it has its end, unless it had one. */
  ghost predicate Resulted(before: Copies, id: string, v: Verdict, now: real, rowNow: real, stored: bool, after: Copies)
    requires v.Verified? ==> Stdout in v.streams && Stderr in v.streams
  {
    if id !in before.memory || before.memory[id].state in {JobCompleted, TimedOut, Unreachable, JobFailed}
    then after == before && stored
    else
      && OnlyJob(before, after, id)
      && var was, job := before.memory[id], after.memory[id];
         && ReportedAs(v, was.maxOutputBytes, job.state, job.result)
         && job == was.(state := job.state, result := job.result, completedAt := Some(now))
         && (if stored then RowFinished(before.rows, after.rows, id, job.state, job.result, rowNow)
             else after.rows == before.rows)
  }

  lemma NextIsResulted(before: Copies, id: string, v: Verdict, now: real, rowNow: real, stored: bool)
    requires id in before.memory
    requires v.Verified? ==> IsTerminal(v.state) && Stdout in v.streams && Stderr in v.streams
    requires var (state, r) := Stored(v, before.memory[id].maxOutputBytes);
             stored <==> IsTerminal(before.memory[id].state) || Storable(r)
    ensures var (state, r) := Stored(v, before.memory[id].maxOutputBytes);
            Resulted(before, id, v, now, rowNow, stored, Next(before, Finish(id, state, r, now, rowNow)))
  {
    var (state, r) := Stored(v, before.memory[id].maxOutputBytes);
    StoredIsReported(v, before.memory[id].maxOutputBytes);
    NextDoes(before, Finish(id, state, r, now, rowNow));
    hide Next, Stored, ReportedAs, Storable, RowFinished;
  }

  /** Connected, not revoked, and heard from within 30 s. */
  predicate IsLive(connections: map<string, Liveness>, device: string, monotonicNow: real) {
    && device in connections && !connections[device].revoked
    && monotonicNow - connections[device].lastSeen < 30.0
  }

  /** Since when a job counts: its dispatch, or its creation if that has no time. */
  function Since(job: Job): real {
    match job.dispatchedAt
    case Some(at) => if at == 0.0 then job.createdAt else at
    case None => job.createdAt
  }

  /** What a tick makes of one job: nothing if it is finished, or its device is live and its
      age at most its timeout and 5 s; otherwise its end, and which. */
  predicate TickedTo(job: Job, live: bool, now: real, at: real, after: Job) {
    if job.state in {JobCompleted, TimedOut, Unreachable, JobFailed} then after == job
    else
      var due := now - Since(job) > job.timeout as real + 5.0;
      && (after == job <==> live && !due)
      && (after.state == JobState.Unreachable <==> !live)
      && (after.state == TimedOut <==> live && due)
      && (after != job ==>
            after == job.(state := after.state, completedAt := Some(at),
              result := JobResult(None, [], [], None, false, false, Some(
                if live then Ascii("No result within " + Decimal.Str(job.timeout) + "s.")
                else Ascii("Device is not reachable.")))))
  }

  lemma SupervisedTicks(memory: map<string, Job>, connections: map<string, Liveness>, now: real,
                        clocks: string -> Clocks)
    ensures var after := SupervisedAll(memory, connections, now, clocks);
            && after.Keys == memory.Keys
            && forall id | id in memory ::
                 TickedTo(memory[id], IsLive(connections, memory[id].device, clocks(id).monotonic), now, clocks(id).at,
                          after[id])
  {
  }

  /** Forgotten by a tick: finished more than a minute before. */
  predicate IsForgotten(job: Job, now: real) {
    && job.state in {JobCompleted, TimedOut, Unreachable, JobFailed}
    && job.completedAt.Some? && job.completedAt.value < now - 60.0
  }

  /** Memory after a tick: what is left of each job. */
  predicate Ticked(before: map<string, Job>, connections: map<string, Liveness>, evictNow: real, now: real,
                   clocks: string -> Clocks, after: map<string, Job>) {
    && after.Keys <= before.Keys
    && (forall id | id in before :: id !in after <==> IsForgotten(before[id], evictNow))
    && forall id | id in after ::
         TickedTo(before[id], IsLive(connections, before[id].device, clocks(id).monotonic), now, clocks(id).at,
                  after[id])
  }

  lemma RemainingTicks(before: map<string, Job>, connections: map<string, Liveness>, evictNow: real, now: real,
                       clocks: string -> Clocks)
    ensures Ticked(before, connections, evictNow, now, clocks,
                   SupervisedAll(Remaining(before, evictNow - FINISHED_JOB_RETENTION_SECONDS), connections, now,
                                 clocks))
  {
    SupervisedTicks(Remaining(before, evictNow - FINISHED_JOB_RETENTION_SECONDS), connections, now, clocks);
    hide SupervisedAll, TickedTo, IsLive;
  }

  /** Memory after a revocation: the device's unfinished jobs are unreachable, and no other changed. */
  predicate CancelledFor(before: map<string, Job>, device: string, at: string -> real, after: map<string, Job>) {
    && after.Keys == before.Keys
    && forall id | id in before ::
         var job := before[id];
         after[id] == if job.device == device && job.state !in {JobCompleted, TimedOut, Unreachable, JobFailed}
                      then job.(state := JobState.Unreachable, completedAt := Some(at(id)),
                             result := JobResult(None, [], [], None, false, false,
                                         Some(Ascii("Device was revoked before the job completed."))))
                      else job
  }

  lemma RevokedIsCancelled(before: map<string, Job>, device: string, at: string -> real)
    ensures CancelledFor(before, device, at, RevokedAll(before, device, at))
  {
  }

  /** Both copies after an accepted send: one new job, dispatched, in memory and in its row. */
  ghost predicate Dispatches(before: Copies, after: Copies, device: string, script: Script, timeout: int,
                             maxOutputBytes: nat, operator: string, key: Option<string>, id: string,
                             createdAt: real, dispatchedAt: real) {
    var none := JobResult(None, [], [], None, false, false, None);
    && id !in before.rows
    && after.memory == before.memory[id := Job(device, script, timeout, maxOutputBytes, operator, createdAt,
                                               Some(dispatchedAt), None, Dispatched, none)]
    && after.rows == before.rows[id := JobRow(JobSpec(device, script, timeout, operator, key, createdAt), Dispatched,
                                              Some(dispatchedAt), None, none)]
  }

  lemma LaunchedDispatches(before: Copies, after: Copies, device: string, script: Script, timeout: int,
                           maxOutputBytes: nat, operator: string, key: Option<string>, id: string,
                           createdAt: real, dispatchedAt: real)
    requires id !in before.issued
    requires Launched(before, after, device, script, timeout, maxOutputBytes, operator, key, id, createdAt,
                      dispatchedAt)
    ensures Dispatches(before, after, device, script, timeout, maxOutputBytes, operator, key, id, createdAt,
                       dispatchedAt)
  {
    var create := Create(id, NewJob(device, script, timeout, maxOutputBytes, operator, createdAt), key);
    NextDoes(before, create);
    NextDoes(Next(before, create), Dispatch(id, dispatchedAt));
    hide InsertAccepted, Next;
    assert id in after.memory && id in after.rows;
  }

  lemma RejectedIsStored(v: Verdict, limit: nat, error: Text)
    requires v.Rejected? && error == Ascii("Result rejected: ") + v.reason
    ensures Stored(v, limit) == (JobFailed, FailedResult(error))
  {
  }

  /** limit_output, on a verified result. */
  method HoldToLimit(v: Verdict, limit: nat) returns (result: JobResult)
    requires v.Verified? && IsTerminal(v.state) && Stdout in v.streams && Stderr in v.streams
    ensures Stored(v, limit) == (v.state, result) && Storable(result)
  {
    hide Limited;
    var limited := LimitOutput.LimitOutput(v.streams, limit);
    var out, err := limited[Stdout], limited[Stderr];
    result := JobResult(v.exitCode, out.text, err.text, Some(v.durationMs), out.truncated, err.truncated, v.error);
  }

  class ControlPlane {
    const store: Store
    const jobs: JobStore
    const registry: DeviceRegistry

    ghost predicate Valid()
      reads jobs, jobs.store`jobs, registry
    {
      jobs.store == store && jobs.Valid() && registry.Valid()
    }

    constructor (store: Store)
      requires KeysUnique(store.jobs)
      ensures Valid() && this.store == store && jobs.jobs == map[]
    {
      this.store := store;
      jobs := new JobStore(store);
      registry := new DeviceRegistry();
    }

    lemma Together()
      requires jobs.store == store && jobs.Valid() && registry.Valid()
      ensures Valid()
    {
    }

    /** What send_to_device answers before it creates anything, if it stops there. */
    method Screen(device: string, script: Script, timeout: int, operator: string, key: Option<string>,
                  monotonicNow: real)
      returns (r: Option<Reply>)
      requires Valid()
      ensures jobs.Both() == old(jobs.Both())
      ensures Answers(if r.Some? then r.value else Raised, store.jobs, store.revoked,
                      registry.Reachable(device, monotonicNow), device, script, timeout, operator, key)
      ensures r.Some? ==> !r.value.Sent? && !r.value.Raised?
    {
      if key.Some? && key.value != "" {
        var earlier := store.JobForIdempotencyKey(key.value);
        if earlier.Some? {
          OneEarlier(store.jobs, earlier.value, device, script, timeout, operator);
          if !IsRepeat(store.jobs[earlier.value].spec, device, script, timeout, operator) { return Some(Conflict); }
          return Some(Duplicate(earlier.value));
        }
      }
      if device !in store.revoked { return Some(NotEnrolled); }
      if store.revoked[device] { return Some(IsRevoked); }
      if !registry.Reachable(device, monotonicNow) { return Some(NotReachable); }
      return None;
    }

    /** ... and the job it then creates and marks dispatched. */
    method Launch(device: string, script: Script, timeout: int, maxOutputBytes: nat, operator: string,
                  key: Option<string>, id: string, createdAt: real, dispatchedAt: real) returns (launched: bool)
      requires Valid() && id !in jobs.issued && id !in store.jobs
      modifies jobs, store`jobs
      ensures Valid()
      ensures launched ==> Launched(old(jobs.Both()), jobs.Both(), device, script, timeout, maxOutputBytes,
                                    operator, key, id, createdAt, dispatchedAt)
      ensures !launched ==> Stranded(old(jobs.Both()), jobs.Both(), device, script, timeout, maxOutputBytes, operator,
                                     key, id, createdAt)
    {
      KeptCreate(jobs.Both(), id, device, script, timeout, maxOutputBytes, operator, key, createdAt);
      assert jobs.store == store && jobs.Valid() && registry.Valid();
      assert jobs.Both().rows == store.jobs && jobs.Both().issued == jobs.issued;
      hide *;
      var job := jobs.Create(id, device, script, timeout, maxOutputBytes, operator, key, createdAt);
      Together();
      launched := job.Some?;
      if launched { jobs.MarkDispatched(job.value, dispatchedAt); }
    }

    /** ... and the message it queues. */
    method Enqueue(device: string, script: Script, timeout: int, maxOutputBytes: nat, operator: string,
                   key: Option<string>, id: string, createdAt: real, dispatchedAt: real, connection: DeviceConnection)
      returns (launched: bool)
      requires Valid() && id !in jobs.issued && id !in store.jobs
      modifies jobs, store`jobs, connection`outbound
      ensures Valid()
      ensures launched ==> Launched(old(jobs.Both()), jobs.Both(), device, script, timeout, maxOutputBytes,
                                    operator, key, id, createdAt, dispatchedAt)
      ensures !launched ==> Stranded(old(jobs.Both()), jobs.Both(), device, script, timeout, maxOutputBytes, operator,
                                     key, id, createdAt)
      ensures connection.outbound == old(connection.outbound)
                + if launched then [JobDispatch(id, script, timeout, maxOutputBytes)] else []
    {
      hide Launched, Stranded;
      launched := Launch(device, script, timeout, maxOutputBytes, operator, key, id, createdAt, dispatchedAt);
      ghost var both := jobs.Both();
      if launched {
        connection.outbound := connection.outbound + [JobDispatch(id, script, timeout, maxOutputBytes)];
      } else {
        assert connection.outbound + [] == connection.outbound;
      }
      assert jobs.Both() == both;
    }

    /** send_to_device. `id` is fresh; the clocks are read as the names say. */
    method SendToDevice(device: string, script: Script, timeout: int, maxOutputBytes: nat, operator: string,
                        key: Option<string>, id: string, createdAt: real, dispatchedAt: real, monotonicNow: real)
      returns (r: Reply)
      requires Valid() && id !in jobs.issued && id !in store.jobs
      modifies jobs, store`jobs, registry.Connections(device)
      ensures Valid()
      ensures r.Sent? ==> r.job == id
      ensures r.Sent? ==> Launched(old(jobs.Both()), jobs.Both(), device, script, timeout, maxOutputBytes,
                                   operator, key, id, createdAt, dispatchedAt)
      ensures r.Raised? ==> Stranded(old(jobs.Both()), jobs.Both(), device, script, timeout, maxOutputBytes, operator,
                                     key, id, createdAt)
      ensures r.Sent? ==> Dispatches(old(jobs.Both()), jobs.Both(), device, script, timeout, maxOutputBytes,
                                     operator, key, id, createdAt, dispatchedAt)
      ensures !r.Sent? && !r.Raised? ==> jobs.Both() == old(jobs.Both())
      ensures Answers(r, old(store.jobs), store.revoked, old(registry.Reachable(device, monotonicNow)),
                      device, script, timeout, operator, key)
      ensures r.Raised? ==> !Encodable(script) || (key == Some("") && KeyTaken(old(store.jobs), ""))
      ensures r.Sent? ==> Encodable(script) && !(key == Some("") && KeyTaken(old(store.jobs), ""))
      ensures device in registry.devices ==>
                (registry.devices[device].outbound == old(registry.devices[device].outbound)
                   + if r.Sent? then [JobDispatch(id, script, timeout, maxOutputBytes)] else [])
    {
      var refused := Screen(device, script, timeout, operator, key, monotonicNow);
      assert refused.None? ==> device in registry.devices && registry.Connections(device) == {registry.devices[device]};
      hide Launched, Stranded, KeyTaken, Answers, Encodable, Dispatches;
      if refused.Some? {
        assert device in registry.devices
               ==> registry.devices[device].outbound + [] == registry.devices[device].outbound;
        return refused.value;
      }
      var connection := registry.devices[device];
      var launched := Enqueue(device, script, timeout, maxOutputBytes, operator, key, id, createdAt, dispatchedAt,
                              connection);
      LaunchedExactly(old(jobs.Both()), jobs.Both(), device, script, timeout, maxOutputBytes, operator, key, id,
                      createdAt, dispatchedAt);
      if launched {
        LaunchedDispatches(old(jobs.Both()), jobs.Both(), device, script, timeout, maxOutputBytes, operator, key, id,
                           createdAt, dispatchedAt);
      }
      r := if launched then Sent(id) else Raised;
    }

    /** The job with this id, if it is this connection's device's. */
    function Owned(id: string, connection: DeviceConnection): Option<JobRecord>
      reads jobs
    {
      if id in jobs.jobs && jobs.jobs[id].device == connection.device then Some(jobs.jobs[id]) else None
    }

    /** job_accepted */
    method JobAccepted(id: string, connection: DeviceConnection)
      requires Valid()
      modifies jobs.Records(), store`jobs
      ensures Valid()
      ensures jobs.Both() ==
                if old(Owned(id, connection)).Some? then Next(old(jobs.Both()), Accept(id)) else old(jobs.Both())
      ensures if old(Owned(id, connection)).Some? then Does(old(jobs.Both()), Accept(id), jobs.Both())
              else jobs.Both() == old(jobs.Both())
    {
      NextDoes(jobs.Both(), Accept(id));
      hide Does;
      var job := Owned(id, connection);
      if job.Some? && job.value.state == Dispatched { jobs.MarkRunning(job.value); }
    }

    /** handle_result, given what parsing and verification made of the payload. */
    method HandleResult(id: string, connection: DeviceConnection, v: Verdict, now: real, rowNow: real)
      returns (stored: bool)
      requires Valid() && (v.Verified? ==> IsTerminal(v.state) && Stdout in v.streams && Stderr in v.streams)
      modifies jobs.Records(), store`jobs
      ensures Valid()
      ensures jobs.Both() ==
                if old(Owned(id, connection)).None? then old(jobs.Both())
                else var (state, result) := Stored(v, old(Owned(id, connection)).value.maxOutputBytes);
                     Next(old(jobs.Both()), Finish(id, state, result, now, rowNow))
      ensures if old(Owned(id, connection)).None? then jobs.Both() == old(jobs.Both())
              else Resulted(old(jobs.Both()), id, v, now, rowNow, stored, jobs.Both())
      ensures v.Verified? ==> stored
    {
      var job := Owned(id, connection);
      if job.None? { return true; }
      jobs.ValueInMemory(job.value);
      hide Next, Stored, Resulted, Storable, KeysUnique;
      stored := Settle(job.value, v, now, rowNow);
      NextIsResulted(old(jobs.Both()), id, v, now, rowNow, stored);
    }

    /** ... on the job it is for. */
    method Settle(job: JobRecord, v: Verdict, now: real, rowNow: real) returns (stored: bool)
      requires Valid() && jobs.Holds(job)
      requires v.Verified? ==> IsTerminal(v.state) && Stdout in v.streams && Stderr in v.streams
      modifies job, store`jobs
      ensures Valid()
      ensures var (state, result) := Stored(v, job.maxOutputBytes);
              && jobs.Both() == Next(old(jobs.Both()), Finish(job.jobId, state, result, now, rowNow))
              && (stored <==> IsTerminal(old(job.state)) || Storable(result))
      ensures v.Verified? ==> stored
    {
      hide Stored, Next, Storable, KeysUnique, HeldTo;
      if v.Rejected? {
        var error := Ascii("Result rejected: ") + v.reason;
        RejectedIsStored(v, job.maxOutputBytes, error);
        stored := jobs.Fail(job, JobFailed, error, now, rowNow);
      } else {
        var result := HoldToLimit(v, job.maxOutputBytes);
        assert jobs.Both() == old(jobs.Both());
        stored := jobs.Complete(job, result, v.state, now, rowNow);
      }
    }

    /** One message of _receive_loop: whatever it is, the device was heard from. */
    method Receive(message: Incoming, connection: DeviceConnection, monotonicNow: real, now: real, rowNow: real)
      requires Valid() && (message.Result? && message.verdict.Verified? ==>
        IsTerminal(message.verdict.state) && Stdout in message.verdict.streams && Stderr in message.verdict.streams)
      modifies connection`lastSeen, jobs.Records(), store`jobs
      ensures Valid() && connection.lastSeen == monotonicNow
      ensures connection.revoked || connection.IsReachable(monotonicNow)
      ensures match message
              case Accepted(id) => jobs.Both() ==
                (if old(Owned(id, connection)).Some? then Next(old(jobs.Both()), Accept(id)) else old(jobs.Both()))
              case Result(id, verdict) => jobs.Both() ==
                (if old(Owned(id, connection)).None? then old(jobs.Both())
                 else var (state, result) := Stored(verdict, old(Owned(id, connection)).value.maxOutputBytes);
                      Next(old(jobs.Both()), Finish(id, state, result, now, rowNow)))
              case Other => jobs.Both() == old(jobs.Both())
      ensures match message
              case Accepted(id) =>
                (old(Owned(id, connection)).Some? ==> Does(old(jobs.Both()), Accept(id), jobs.Both()))
              case Result(id, verdict) =>
                (old(Owned(id, connection)).Some? ==>
                   exists stored: bool :: Resulted(old(jobs.Both()), id, verdict, now, rowNow, stored, jobs.Both()))
              case Other => true
    {
      connection.Touch(monotonicNow);
      assert jobs.Both() == old(jobs.Both()) && forall id :: Owned(id, connection) == old(Owned(id, connection));
      hide Next, Does, Resulted, Stored;
      match message
      case Accepted(id) => JobAccepted(id, connection);
      case Result(id, verdict) => var stored := HandleResult(id, connection, verdict, now, rowNow);
      case Other =>
    }

    /** agent_connect, once the signature is verified: a newer connection replaces the
        one before it, and the device can be sent to. */
    method Connect(device: string, monotonicNow: real) returns (connection: Option<DeviceConnection>)
      requires Valid()
      modifies registry
      ensures Valid() && jobs.Both() == old(jobs.Both())
      ensures connection.None? <==> device !in store.revoked || store.revoked[device]
      ensures connection.None? ==> registry.devices == old(registry.devices)
      ensures connection.Some? ==> fresh(connection.value) && registry.Reachable(device, monotonicNow)
      ensures connection.Some? ==> registry.devices == old(registry.devices)[device := connection.value]
    {
      if device !in store.revoked || store.revoked[device] { return None; }
      var live := new DeviceConnection(device, monotonicNow);
      registry.Register(live);
      connection := Some(live);
    }

    /** The supervisor's verdict on one job. */
    method SuperviseOne(job: JobRecord, now: real, clocks: Clocks) returns (ghost events: seq<Event>)
      requires Valid() && jobs.Holds(job)
      modifies job, store`jobs
      ensures Valid() && registry.Snapshot() == old(registry.Snapshot())
      ensures jobs.Memory() == old(jobs.Memory())[job.jobId :=
                Supervised(old(job.Value()), Live(old(registry.Snapshot()), job.device, clocks.monotonic),
                           now, clocks.at)]
      ensures jobs.Both() == After(old(jobs.Both()), events) && KeptThroughout(old(jobs.Both()), events)
    {
      var ending := Ending(job.Value(), registry.Reachable(job.device, clocks.monotonic), now);
      EndingIsEncodable(job.Value(), registry.Reachable(job.device, clocks.monotonic), now);
      jobs.ValueInMemory(job);
      hide Next, After, KeptThroughout, Storable, Encodable, IsTerminal, KeysUnique;
      if ending.Some? {
        var state, error := ending.value.0, ending.value.1;
        var stored := jobs.Fail(job, state, error, clocks.at, clocks.rowAt);
        events := [Finish(job.jobId, state, FailedResult(error), clocks.at, clocks.rowAt)];
        OnlyOne(old(jobs.Both()), events[0]);
      } else {
        events := [];
        NothingYet(jobs.Both());
      }
    }

    /** The supervisor's loop over the active jobs. */
    method SuperviseAll(now: real, clocks: string -> Clocks) returns (ghost events: seq<Event>)
      requires Valid()
      modifies jobs.Records(), store`jobs
      ensures Valid() && registry.Snapshot() == old(registry.Snapshot())
      ensures jobs.Memory() == SupervisedAll(old(jobs.Memory()), old(registry.Snapshot()), now, clocks)
      ensures jobs.Both() == After(old(jobs.Both()), events) && KeptThroughout(old(jobs.Both()), events)
    {
      ghost var before, connections := jobs.Memory(), registry.Snapshot();
      var active := jobs.Active();
      UnfinishedAreActive(active);
      RestUntouched(before, connections, now, clocks, IdsFrom(active, 0));
      NothingYet(jobs.Both());
      assert forall j | 0 <= j < |active| :: active[j] in jobs.Records();
      hide SupervisedAll, Halfway, IdsFrom, After, KeptThroughout;
      events := SuperviseEach(before, connections, jobs.Both(), active, now, clocks);
      IdsFromEnd(active);
      HalfwayDone(before, SupervisedAll(before, connections, now, clocks));
    }

    /** The rule has been applied to the first `k` of the active jobs, and `events` did it. */
    ghost predicate Underway(before: map<string, Job>, connections: map<string, Liveness>, start: Copies,
                             events: seq<Event>, active: seq<JobRecord>, k: nat, now: real, clocks: string -> Clocks)
      reads jobs, jobs.Records(), jobs.store`jobs, store`jobs, registry, registry.devices.Values
    {
      && Valid() && Ready(active) && registry.Snapshot() == connections
      && SupervisedAll(before, connections, now, clocks).Keys == before.Keys
      && jobs.Memory() == Halfway(before, SupervisedAll(before, connections, now, clocks), IdsFrom(active, k))
      && jobs.Both() == After(start, events) && KeptThroughout(start, events)
    }

    method SuperviseEach(ghost before: map<string, Job>, ghost connections: map<string, Liveness>, ghost start: Copies,
                         active: seq<JobRecord>, now: real, clocks: string -> Clocks) returns (ghost events: seq<Event>)
      requires Underway(before, connections, start, [], active, 0, now, clocks)
      modifies active, store`jobs
      ensures Underway(before, connections, start, events, active, |active|, now, clocks)
    {
      events := [];
      hide *;
      for k := 0 to |active|
        invariant Underway(before, connections, start, events, active, k, now, clocks)
      {
        events := SuperviseNext(before, connections, start, events, active, k, now, clocks);
      }
    }

    /** One turn of that loop. */
    method SuperviseNext(ghost before: map<string, Job>, ghost connections: map<string, Liveness>, ghost start: Copies,
                         ghost events: seq<Event>, active: seq<JobRecord>, k: nat, now: real, clocks: string -> Clocks)
      returns (ghost more: seq<Event>)
      requires k < |active| && Underway(before, connections, start, events, active, k, now, clocks)
      modifies active[k], store`jobs
      ensures Underway(before, connections, start, more, active, k + 1, now, clocks)
    {
      hide After, KeptThroughout, SupervisedAll, Supervised, IdsFrom;
      var job := active[k];
      IdsFromNext(active, k);
      jobs.ValueInMemory(job);
      SupervisedAt(before, connections, now, clocks, job.jobId);
      HalfwayNext(before, SupervisedAll(before, connections, now, clocks), IdsFrom(active, k), job.jobId);
      hide Halfway;
      ghost var one := SuperviseOne(job, now, clocks(job.jobId));
      AfterJoin(start, events, one);
      KeptJoin(start, events, one);
      more := events + one;
    }

    lemma UnfinishedAreActive(active: seq<JobRecord>)
      requires forall id | id in jobs.jobs :: jobs.jobs[id] in active <==> !IsTerminal(jobs.jobs[id].state)
      requires jobs.Valid()
      ensures forall id | id in jobs.Memory() && id !in IdsFrom(active, 0) :: IsTerminal(jobs.Memory()[id].state)
    {
      assert forall j | 0 <= j < |active| :: active[j].jobId in IdsFrom(active, 0);
    }

    /** One turn of supervise: forget what finished a minute ago, then look at the rest. */
    method Tick(evictNow: real, now: real, clocks: string -> Clocks) returns (ghost events: seq<Event>)
      requires Valid()
      modifies jobs`jobs, jobs.Records(), store`jobs
      ensures Valid() && registry.Snapshot() == old(registry.Snapshot())
      ensures jobs.Memory() ==
                SupervisedAll(Remaining(old(jobs.Memory()), evictNow - FINISHED_JOB_RETENTION_SECONDS),
                              old(registry.Snapshot()), now, clocks)
      ensures Ticked(old(jobs.Memory()), old(registry.Snapshot()), evictNow, now, clocks, jobs.Memory())
      ensures jobs.Both() == After(old(jobs.Both()), events) && KeptThroughout(old(jobs.Both()), events)
    {
      var cutoff := evictNow - FINISHED_JOB_RETENTION_SECONDS;
      RemainingTicks(jobs.Memory(), registry.Snapshot(), evictNow, now, clocks);
      hide Ticked;
      var count := jobs.EvictFinished(cutoff);
      hide Next, After, KeptThroughout, Remaining, SupervisedAll;
      assert registry.Snapshot() == old(registry.Snapshot());
      ghost var rest := SuperviseAll(now, clocks);
      EvictFirst(old(jobs.Both()), cutoff, rest);
      events := [Evict(cutoff)] + rest;
    }

    /** Jobs of this store, each once. */
    ghost predicate Ready(active: seq<JobRecord>)
      reads jobs
    {
      && (forall k | 0 <= k < |active| :: jobs.Holds(active[k]))
      && (forall k, l | 0 <= k < l < |active| :: active[k].jobId != active[l].jobId)
    }

    /** revoke_device's loop over the active jobs. */
    method CancelAll(device: string, at: string -> real, rowAt: string -> real)
      returns (cancelled: nat, ghost events: seq<Event>)
      requires Valid()
      modifies jobs.Records(), store`jobs
      ensures Valid() && jobs.Memory() == RevokedAll(old(jobs.Memory()), device, at)
      ensures jobs.Both() == After(old(jobs.Both()), events) && KeptThroughout(old(jobs.Both()), events)
      ensures cancelled == |events|
    {
      ghost var before := jobs.Memory();
      var active := jobs.Active();
      UnfinishedAreActive(active);
      RestUnrevoked(before, device, at, IdsFrom(active, 0));
      assert Ready(active) && forall j | 0 <= j < |active| :: active[j] in jobs.Records();
      hide *;
      cancelled, events := CancelEach(before, active, device, at, rowAt);
      IdsFromEnd(active);
      HalfwayDone(before, RevokedAll(before, device, at));
    }

    method CancelEach(ghost before: map<string, Job>, active: seq<JobRecord>, device: string, at: string -> real,
                      rowAt: string -> real) returns (cancelled: nat, ghost events: seq<Event>)
      requires Valid() && Ready(active) && RevokedAll(before, device, at).Keys == before.Keys
      requires jobs.Memory() == Halfway(before, RevokedAll(before, device, at), IdsFrom(active, 0))
      modifies active, store`jobs
      ensures Valid() && cancelled == |events|
      ensures jobs.Memory() == Halfway(before, RevokedAll(before, device, at), IdsFrom(active, |active|))
      ensures jobs.Both() == After(old(jobs.Both()), events) && KeptThroughout(old(jobs.Both()), events)
    {
      ghost var start := jobs.Both();
      cancelled, events := 0, [];
      assert start == After(start, events) && KeptThroughout(start, events);
      hide *;
      var k := 0;
      while k < |active|
        invariant k <= |active| && Valid() && Ready(active)
        invariant cancelled == |events|
        invariant jobs.Memory() == Halfway(before, RevokedAll(before, device, at), IdsFrom(active, k))
        invariant jobs.Both() == After(start, events) && KeptThroughout(start, events)
      {
        var count, more := CancelNext(before, start, events, active, k, device, at, rowAt);
        cancelled, events, k := cancelled + count, more, k + 1;
      }
    }

    /** One turn of that loop. */
    method CancelNext(ghost before: map<string, Job>, ghost start: Copies, ghost events: seq<Event>,
                      active: seq<JobRecord>, k: nat, device: string, at: string -> real, rowAt: string -> real)
      returns (count: nat, ghost more: seq<Event>)
      requires Valid() && k < |active| && Ready(active)
      requires RevokedAll(before, device, at).Keys == before.Keys
      requires jobs.Memory() == Halfway(before, RevokedAll(before, device, at), IdsFrom(active, k))
      requires jobs.Both() == After(start, events) && KeptThroughout(start, events)
      modifies active[k], store`jobs
      ensures Valid() && Ready(active) && |more| == |events| + count
      ensures jobs.Memory() == Halfway(before, RevokedAll(before, device, at), IdsFrom(active, k + 1))
      ensures jobs.Both() == After(start, more) && KeptThroughout(start, more)
    {
      hide After, KeptThroughout, RevokedAll, RevokedOne, IdsFrom;
      var job := active[k];
      IdsFromNext(active, k);
      jobs.ValueInMemory(job);
      RevokedAt(before, device, at, job.jobId);
      HalfwayNext(before, RevokedAll(before, device, at), IdsFrom(active, k), job.jobId);
      hide Halfway;
      ghost var one;
      count, one := CancelOne(job, device, at(job.jobId), rowAt(job.jobId));
      AfterJoin(start, events, one);
      KeptJoin(start, events, one);
      more := events + one;
    }

    method CancelOne(job: JobRecord, device: string, at: real, rowAt: real)
      returns (count: nat, ghost events: seq<Event>)
      requires Valid() && jobs.Holds(job)
      modifies job, store`jobs
      ensures Valid() && count == |events| == if job.device == device then 1 else 0
      ensures jobs.Memory() == old(jobs.Memory())[job.jobId := RevokedOne(old(job.Value()), device, at)]
      ensures jobs.Both() == After(old(jobs.Both()), events) && KeptThroughout(old(jobs.Both()), events)
    {
      RevokedIsStorable();
      jobs.ValueInMemory(job);
      hide Next, After, KeptThroughout, Storable, IsTerminal, KeysUnique;
      if job.device == device {
        var stored := jobs.Fail(job, JobState.Unreachable, REVOKED, at, rowAt);
        count, events := 1, [Finish(job.jobId, JobState.Unreachable, FailedResult(REVOKED), at, rowAt)];
        OnlyOne(old(jobs.Both()), events[0]);
      } else {
        count, events := 0, [];
        NothingYet(jobs.Both());
      }
    }

    /** revoke_device: take effect now, for queued work and for jobs in flight. */
    method RevokeDevice(device: string, at: string -> real, rowAt: string -> real)
      returns (known: bool, cancelled: nat, ghost events: seq<Event>)
      requires Valid()
      modifies jobs.Records(), store`jobs, store`revoked, registry.Connections(device)
      ensures Valid() && known == (device in old(store.revoked))
      ensures store.revoked == if known then old(store.revoked)[device := true] else old(store.revoked)
      ensures jobs.Memory() == if known then RevokedAll(old(jobs.Memory()), device, at) else old(jobs.Memory())
      ensures known ==> CancelledFor(old(jobs.Memory()), device, at, jobs.Memory())
      ensures jobs.Both() == After(old(jobs.Both()), events) && KeptThroughout(old(jobs.Both()), events)
      ensures known && device in registry.devices ==>
                (registry.devices[device].revoked && registry.devices[device].closed
                 && registry.devices[device].outbound == [])
    {
      RevokedIsCancelled(jobs.Memory(), device, at);
      NothingYet(jobs.Both());
      hide *;
      known := store.RevokeDevice(device);
      cancelled, events := 0, [];
      assert jobs.Memory() == old(jobs.Memory()) && jobs.Both() == old(jobs.Both());
      if !known { return; }
      cancelled, events := RevokeNow(device, at, rowAt);
    }

    /** ... once it is recorded. */
    method RevokeNow(device: string, at: string -> real, rowAt: string -> real)
      returns (cancelled: nat, ghost events: seq<Event>)
      requires Valid()
      modifies jobs.Records(), store`jobs, registry.Connections(device)
      ensures Valid()
      ensures jobs.Memory() == RevokedAll(old(jobs.Memory()), device, at)
      ensures jobs.Both() == After(old(jobs.Both()), events) && KeptThroughout(old(jobs.Both()), events)
      ensures device in registry.devices ==>
                (registry.devices[device].revoked && registry.devices[device].closed
                 && registry.devices[device].outbound == [])
    {
      hide RevokedAll, After, KeptThroughout, KeysUnique;
      MarkRevoked(device);
      cancelled, events := CancelAll(device, at, rowAt);
      CloseConnection(device);
    }

    method MarkRevoked(device: string)
      requires Valid()
      modifies registry.Connections(device)
      ensures Valid() && jobs.Both() == old(jobs.Both()) && jobs.Memory() == old(jobs.Memory())
    {
      var connection := registry.Get(device);
      if connection.Some? { connection.value.revoked := true; }
    }

    method CloseConnection(device: string)
      requires Valid()
      modifies registry.Connections(device)
      ensures Valid() && jobs.Both() == old(jobs.Both()) && jobs.Memory() == old(jobs.Memory())
      ensures device in registry.devices ==>
                (registry.devices[device].revoked && registry.devices[device].closed
                 && registry.devices[device].outbound == [])
    {
      var connection := registry.Get(device);
      if connection.Some? {
        var dropped := connection.value.DrainPending();
        connection.value.Close();
      }
    }
  }

  /** lifespan: jobs in flight are orphaned, investigations recovered, and the new
      process starts with its copies of the jobs in agreement. */
  method Startup(store: Store, now: real) returns (plane: ControlPlane, work: seq<(string, Kind)>)
    requires KeysUnique(store.jobs)
    modifies store
    ensures fresh(plane) && plane.store == store && plane.Valid() && Agree(plane.jobs.Both())
    ensures NoneInFlight(old(store.jobs), store.jobs, now)
    ensures Recovered(old(store.Data()), store.Data(), Elements(work))
    ensures forall k, l | 0 <= k < l < |work| :: work[k].0 != work[l].0
  {
    store.OrphanActiveJobs(now);
    ghost var rows := store.jobs;
    hide Recovered;
    work := store.RecoverInvestigations();
    plane := new ControlPlane(store);
    assert store.jobs == rows && plane.jobs.Both().memory == map[];
  }

  ghost function IdsFrom(active: seq<JobRecord>, k: nat): set<string> {
    set j | k <= j < |active| :: active[j].jobId
  }

  lemma IdsFromNext(active: seq<JobRecord>, k: nat)
    requires k < |active| && forall i, j | 0 <= i < j < |active| :: active[i].jobId != active[j].jobId
    ensures active[k].jobId in IdsFrom(active, k) && IdsFrom(active, k + 1) == IdsFrom(active, k) - {active[k].jobId}
  {
    assert forall j | k < j < |active| :: active[j].jobId != active[k].jobId;
  }

  lemma IdsFromEnd(active: seq<JobRecord>)
    ensures IdsFrom(active, |active|) == {}
  {
  }

  /** `left` are the jobs the loop has not come to yet. */
  ghost function Halfway(before: map<string, Job>, after: map<string, Job>, left: set<string>): map<string, Job>
    requires after.Keys == before.Keys
  {
    map id | id in before :: if id in left then before[id] else after[id]
  }

  lemma HalfwayNext(before: map<string, Job>, after: map<string, Job>, left: set<string>, id: string)
    requires after.Keys == before.Keys && id in before && id in left
    ensures Halfway(before, after, left)[id] == before[id]
    ensures Halfway(before, after, left - {id}) == Halfway(before, after, left)[id := after[id]]
  {
  }

  lemma HalfwayDone(before: map<string, Job>, after: map<string, Job>)
    requires after.Keys == before.Keys
    ensures Halfway(before, after, {}) == after
  {
  }

  lemma SupervisedAt(memory: map<string, Job>, connections: map<string, Liveness>, now: real,
                     clocks: string -> Clocks, id: string)
    requires id in memory
    ensures SupervisedAll(memory, connections, now, clocks).Keys == memory.Keys
    ensures SupervisedAll(memory, connections, now, clocks)[id] ==
              Supervised(memory[id], Live(connections, memory[id].device, clocks(id).monotonic), now, clocks(id).at)
  {
  }

  lemma RevokedAt(memory: map<string, Job>, device: string, at: string -> real, id: string)
    requires id in memory
    ensures RevokedAll(memory, device, at).Keys == memory.Keys
    ensures RevokedAll(memory, device, at)[id] == RevokedOne(memory[id], device, at(id))
  {
  }

  lemma RestUnrevoked(before: map<string, Job>, device: string, at: string -> real, left: set<string>)
    requires forall id | id in before && id !in left :: IsTerminal(before[id].state)
    ensures RevokedAll(before, device, at).Keys == before.Keys
    ensures before == Halfway(before, RevokedAll(before, device, at), left)
  {
  }

  /** A finished job is not touched. */
  lemma RestUntouched(before: map<string, Job>, connections: map<string, Liveness>, now: real,
                      clocks: string -> Clocks, left: set<string>)
    requires forall id | id in before && id !in left :: IsTerminal(before[id].state)
    ensures SupervisedAll(before, connections, now, clocks).Keys == before.Keys
    ensures before == Halfway(before, SupervisedAll(before, connections, now, clocks), left)
  {
  }

  lemma EndingIsEncodable(job: Job, reachable: bool, now: real)
    ensures var ending := Ending(job, reachable, now); ending.Some? ==>
              IsTerminal(ending.value.0) && Storable(FailedResult(ending.value.1))
  {
    AsciiIsEncodable("Device is not reachable.");
    AsciiIsEncodable("No result within " + Decimal.Str(job.timeout) + "s.");
  }
}
