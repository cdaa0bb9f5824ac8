/** In-memory coordination for in-flight jobs, written through to the store
    (server/jobs.py). Every method is one event of `Jobs`. */
module JobStores {
  import opened Wrappers
  import opened Tables
  import opened Jobs
  import opened Stores

  class JobRecord {
    const jobId: string
    const device: string
    const script: Script
    const timeout: int
    const maxOutputBytes: nat
    const createdBy: string
    const createdAt: real
    var dispatchedAt: Option<real>
    var completedAt: Option<real>
    var state: JobState
    var result: JobResult

    function Value(): Job
      reads this
    {
      Job(device, script, timeout, maxOutputBytes, createdBy, createdAt, dispatchedAt, completedAt, state, result)
    }

    constructor (jobId: string, device: string, script: Script, timeout: int, maxOutputBytes: nat,
                 createdBy: string, now: real)
      ensures this.jobId == jobId && Value() == NewJob(device, script, timeout, maxOutputBytes, createdBy, now)
    {
      this.jobId, this.device, this.script, this.timeout := jobId, device, script, timeout;
      this.maxOutputBytes, this.createdBy, createdAt := maxOutputBytes, createdBy, now;
      dispatchedAt, completedAt, state, result := None, None, JobQueued, NO_RESULT;
    }
  }

  class JobStore {
    const store: Store
    var jobs: map<string, JobRecord>
    ghost var issued: set<string>

    ghost function Records(): set<JobRecord>
      reads this`jobs
    {
      set id | id in jobs :: jobs[id]
    }

    ghost predicate Valid()
      reads this`jobs, this`issued, store`jobs
    {
      jobs.Keys <= issued && (forall id | id in jobs :: jobs[id].jobId == id) && KeysUnique(store.jobs)
    }

    ghost function Memory(): map<string, Job>
      reads this`jobs, Records()
    {
      map id | id in jobs :: jobs[id].Value()
    }

    ghost function Both(): Copies
      reads this, Records(), store`jobs
    {
      Copies(Memory(), store.jobs, issued)
    }

    predicate Holds(job: JobRecord)
      reads this`jobs
    {
      job.jobId in jobs && jobs[job.jobId] == job
    }

    constructor (store: Store)
      requires KeysUnique(store.jobs)
      ensures Valid() && this.store == store && jobs == map[] && issued == store.jobs.Keys
    {
      this.store, jobs, issued := store, map[], store.jobs.Keys;
    }

    lemma ValueInMemory(job: JobRecord)
      requires Holds(job)
      ensures job.jobId in Memory() && Memory()[job.jobId] == job.Value()
    {
    }

    /** self._jobs[job.job_id] = job */
    method Remember(record: JobRecord)
      requires Valid() && record.jobId !in issued
      modifies this`jobs, this`issued
      ensures Valid() && Holds(record) && issued == old(issued) + {record.jobId}
      ensures Memory() == old(Memory())[record.jobId := record.Value()]
    {
      jobs := jobs[record.jobId := record];
      issued := issued + {record.jobId};
    }

    /** store.insert_job, which touches no record. */
    method InsertRow(id: string, spec: JobSpec) returns (accepted: bool)
      requires Valid()
      modifies store`jobs
      ensures Valid() && Memory() == old(Memory())
      ensures accepted <==> InsertAccepted(old(store.jobs), id, spec)
      ensures if accepted then RowAdded(old(store.jobs), store.jobs, id, spec) else store.jobs == old(store.jobs)
    {
      hide RowAdded, InsertAccepted, KeysUnique;
      accepted := store.InsertJob(id, spec);
    }

    /** The id is uuid4's, never drawn before. No record back is an exception from
        the insert: the record then stays in memory all the same. */
    method Create(id: string, device: string, script: Script, timeout: int, maxOutputBytes: nat, createdBy: string,
                  key: Option<string>, now: real) returns (job: Option<JobRecord>)
      requires Valid() && id !in issued
      modifies this`jobs, this`issued, store`jobs
      ensures Valid()
      ensures Both() == Next(old(Both()),
                             Event.Create(id, NewJob(device, script, timeout, maxOutputBytes, createdBy, now), key))
      ensures job.Some? <==> InsertAccepted(old(store.jobs), id, JobSpec(device, script, timeout, createdBy, key, now))
      ensures job.Some? ==> fresh(job.value) && job.value.jobId == id && Holds(job.value)
      ensures job.Some? ==> job.value.state == JobQueued && id in store.jobs
      ensures id !in old(store.jobs) && job.None? ==> id !in store.jobs
    {
      hide Next, RowAdded, InsertAccepted, KeysUnique;
      var record := new JobRecord(id, device, script, timeout, maxOutputBytes, createdBy, now);
      ghost var value := record.Value();
      assert record.state == JobQueued && Memory() == old(Memory());
      hide JobRecord.Value, Memory;
      Remember(record);
      var accepted := InsertRow(id, JobSpec(device, script, timeout, createdBy, key, now));
      CreateIs(old(Both()), Both(), id, value, key);
      job := if accepted then Some(record) else None;
    }

    method Get(id: string) returns (job: Option<JobRecord>)
      requires Valid()
      ensures job == if id in jobs then Some(jobs[id]) else None
      ensures job.Some? ==> Holds(job.value) && job.value.jobId == id
    {
      job := if id in jobs then Some(jobs[id]) else None;
    }

    /** Memory first, then history. */
    method ViewJob(id: string) returns (view: Option<View>)
      ensures view == ViewOf(Both(), id)
    {
      if id in jobs { return Some(JobView(jobs[id].Value())); }
      if id in store.jobs { return Some(RowView(store.jobs[id])); }
      return None;
    }

    method MarkDispatched(job: JobRecord, at: real)
      requires Valid() && Holds(job) && job.state == JobQueued && job.jobId in store.jobs
      modifies job, store`jobs
      ensures Valid()
      ensures Both() == Next(old(Both()), Dispatch(job.jobId, at))
      ensures job.state == Dispatched
    {
      hide KeysUnique;
      job.state, job.dispatchedAt := Dispatched, Some(at);
      store.MarkDispatched(job.jobId, at);
      assert Memory() == old(Memory())[job.jobId := job.Value()];
    }

    method MarkRunning(job: JobRecord)
      requires Valid() && Holds(job) && job.state == Dispatched
      modifies job, store`jobs
      ensures Valid()
      ensures Both() == Next(old(Both()), Accept(job.jobId))
    {
      hide KeysUnique;
      job.state := Running;
      store.UpdateJobState(job.jobId, Running);
      assert Memory() == old(Memory())[job.jobId := job.Value()];
    }

    /** store.complete_job, which touches no record. */
    method CompleteRow(id: string, state: JobState, result: JobResult, now: real) returns (stored: bool)
      requires Valid()
      modifies store`jobs
      ensures Valid() && Memory() == old(Memory())
      ensures stored <==> Storable(result)
      ensures if stored then RowFinished(old(store.jobs), store.jobs, id, state, result, now)
              else store.jobs == old(store.jobs)
    {
      hide RowFinished, Storable, KeysUnique;
      stored := store.CompleteJob(id, state, result, now);
    }

    /** The first terminal state wins. Not stored is an exception from the update. */
    method Complete(job: JobRecord, result: JobResult, state: JobState, now: real, rowNow: real) returns (stored: bool)
      requires Valid() && Holds(job) && IsTerminal(state)
      modifies job, store`jobs
      ensures Valid()
      ensures Both() == Next(old(Both()), Finish(job.jobId, state, result, now, rowNow))
      ensures Memory() == old(Memory())[job.jobId := Jobs.Completed(old(job.Value()), state, result, now)]
      ensures IsTerminal(job.state)
      ensures stored <==> IsTerminal(old(job.state)) || Storable(result)
    {
      hide KeysUnique;
      if IsTerminal(job.state) { return true; }
      job.state, job.result, job.completedAt := state, result, Some(now);
      assert job.Value() == Jobs.Completed(old(job.Value()), state, result, now);
      assert Memory() == old(Memory())[job.jobId := job.Value()];
      hide Memory, JobRecord.Value;
      stored := CompleteRow(job.jobId, state, result, rowNow);
      FinishIs(old(Both()), Both(), job.jobId, state, result, now, rowNow);
      hide Next, RowFinished, Storable, Jobs.Completed;
    }

    method Fail(job: JobRecord, state: JobState, error: Text, now: real, rowNow: real) returns (stored: bool)
      requires Valid() && Holds(job) && IsTerminal(state)
      modifies job, store`jobs
      ensures Valid()
      ensures Both() == Next(old(Both()), Finish(job.jobId, state, FailedResult(error), now, rowNow))
      ensures Memory() == old(Memory())[job.jobId := Jobs.Completed(old(job.Value()), state, FailedResult(error), now)]
      ensures IsTerminal(job.state)
      ensures stored <==> IsTerminal(old(job.state)) || Storable(FailedResult(error))
    {
      stored := Complete(job, FailedResult(error), state, now, rowNow);
    }

    /** The jobs not yet finished, each once. */
    method Active() returns (active: seq<JobRecord>)
      requires Valid()
      ensures forall k | 0 <= k < |active| :: Holds(active[k])
      ensures forall id | id in jobs :: jobs[id] in active <==> !IsTerminal(jobs[id].state)
      ensures forall k, l | 0 <= k < l < |active| :: active[k].jobId != active[l].jobId
    {
      active := [];
      var rest := jobs.Keys;
      while rest != {}
        invariant rest <= jobs.Keys
        invariant forall id | id in jobs :: jobs[id] in active <==> id !in rest && !IsTerminal(jobs[id].state)
        invariant forall k | 0 <= k < |active| :: Holds(active[k])
        invariant forall k, l | 0 <= k < l < |active| :: active[k].jobId != active[l].jobId
        decreases |rest|
      {
        var id :| id in rest;
        rest := rest - {id};
        if !IsTerminal(jobs[id].state) { active := active + [jobs[id]]; }
      }
    }

    /** The deletion loop. */
    method Delete(finished: set<string>)
      requires Valid() && finished <= jobs.Keys
      modifies this`jobs
      ensures Valid() && Records() <= old(Records())
      ensures jobs == old(jobs) - finished && Memory() == old(Memory()) - finished
    {
      var rest := finished;
      while rest != {}
        invariant rest <= finished
        invariant rest <= jobs.Keys && jobs == old(jobs) - (finished - rest)
        decreases |rest|
      {
        var id :| id in rest;
        rest := rest - {id};
        jobs := jobs - {id};
      }
    }

    /** Drops finished jobs from memory. */
    method EvictFinished(cutoff: real) returns (count: nat)
      requires Valid()
      modifies this`jobs
      ensures Valid()
      ensures Both() == Next(old(Both()), Evict(cutoff)) && Memory() == Remaining(old(Memory()), cutoff)
      ensures Records() <= old(Records())
      ensures forall id | id in jobs :: id in old(jobs) && jobs[id] == old(jobs)[id]
      ensures count == |old(jobs).Keys - jobs.Keys|
    {
      var finished := set id | id in jobs && Evictable(jobs[id].Value(), cutoff);
      EvictIs(old(Both()), cutoff, finished);
      count := |finished|;
      hide Next, Evictable, Remaining, Memory, Records, Valid;
      Delete(finished);
      assert old(jobs).Keys - jobs.Keys == finished;
    }
  }

  /** The record in memory, and the row if the insert is accepted, are the create event. */
  lemma CreateIs(before: Copies, after: Copies, id: string, job: Job, key: Option<string>)
    requires id !in before.issued && after.issued == before.issued + {id}
    requires job == NewJob(job.device, job.script, job.timeout, job.maxOutputBytes, job.createdBy, job.createdAt)
    requires after.memory == before.memory[id := job]
    requires if InsertAccepted(before.rows, id, SpecOf(job, key))
             then RowAdded(before.rows, after.rows, id, SpecOf(job, key))
             else after.rows == before.rows
    ensures after == Next(before, Event.Create(id, job, key))
    ensures InsertAccepted(before.rows, id, SpecOf(job, key)) ==> id in after.rows
  {
    var spec := SpecOf(job, key);
    if InsertAccepted(before.rows, id, spec) { AddedExactly(before.rows, after.rows, id, spec); }
    hide InsertAccepted, RowAdded;
  }

  lemma FinishIs(before: Copies, after: Copies, id: string, state: JobState, result: JobResult, now: real, rowNow: real)
    requires id in before.memory && !IsTerminal(before.memory[id].state) && IsTerminal(state)
    requires after.issued == before.issued
    requires after.memory == before.memory[id := Jobs.Completed(before.memory[id], state, result, now)]
    requires if Storable(result) then RowFinished(before.rows, after.rows, id, state, result, rowNow)
             else after.rows == before.rows
    ensures after == Next(before, Finish(id, state, result, now, rowNow))
  {
    if Storable(result) { FinishedExactly(before.rows, after.rows, id, state, result, rowNow); }
    hide Storable, RowFinished;
  }

  lemma EvictIs(s: Copies, cutoff: real, finished: set<string>)
    requires forall id | id in s.memory :: id in finished <==> Evictable(s.memory[id], cutoff)
    ensures Remaining(s.memory, cutoff) == s.memory - finished
    ensures Next(s, Evict(cutoff)) == s.(memory := s.memory - finished)
  {
    hide Evictable;
  }
}
