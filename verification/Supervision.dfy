/** No job outlives its time: the supervisor's ticks over a whole run
    (server/main.py), whatever else happens between them. */
module Supervision {
  import opened Tables
  import opened Jobs
  import opened Registry
  import opened ControlPlane

  /** Anything that happened since the last tick, and then a tick at `now`. */
  datatype Round = Round(between: seq<Event>, now: real, cutoff: real, connections: map<string, Liveness>,
                         clocks: string -> Clocks, tick: seq<Event>)

  function AfterRound(s: Copies, r: Round): Copies {
    After(After(s, r.between), r.tick)
  }

  /** The tick's events leave the memory as `ControlPlane.Tick` promises. */
  ghost predicate IsRound(s: Copies, r: Round) {
    AfterRound(s, r).memory
      == SupervisedAll(Remaining(After(s, r.between).memory, r.cutoff), r.connections, r.now, r.clocks)
  }

  ghost predicate AreRounds(s: Copies, rounds: seq<Round>)
    decreases |rounds|
  {
    rounds == [] || (IsRound(s, rounds[0]) && AreRounds(AfterRound(s, rounds[0]), rounds[1..]))
  }

  predicate IsActive(s: Copies, id: string) {
    id in s.memory && !IsTerminal(s.memory[id].state)
  }

  /** A job that was dispatched is in memory with its start time and timeout, or no longer. */
  predicate Runs(s: Copies, id: string, started: real, timeout: int) {
    id in s.issued && (id in s.memory ==>
      s.memory[id].state != JobQueued && Started(s.memory[id]) == started && s.memory[id].timeout == timeout)
  }

  lemma NextKeepsRuns(s: Copies, e: Event, id: string, started: real, timeout: int)
    requires Runs(s, id, started, timeout)
    ensures Runs(Next(s, e), id, started, timeout)
  {
  }

  lemma {:induction false} AfterKeepsRuns(s: Copies, events: seq<Event>, id: string, started: real, timeout: int)
    requires Runs(s, id, started, timeout)
    ensures Runs(After(s, events), id, started, timeout)
    decreases |events|
  {
    if events != [] {
      NextKeepsRuns(s, events[0], id, started, timeout);
      AfterKeepsRuns(Next(s, events[0]), events[1..], id, started, timeout);
    }
  }

  /** Some tick no later than `limit` leaves the job finished. */
  ghost predicate DoneBy(s: Copies, rounds: seq<Round>, id: string, limit: real)
    decreases |rounds|
  {
    rounds != [] &&
    ((rounds[0].now <= limit && !IsActive(AfterRound(s, rounds[0]), id))
     || DoneBy(AfterRound(s, rounds[0]), rounds[1..], id, limit))
  }

  predicate Spaced(rounds: seq<Round>, d: real) {
    forall k | 0 < k < |rounds| :: rounds[k].now <= rounds[k - 1].now + d
  }

  /** A tick after the grace has passed finishes the job. */
  lemma LateTickFinishes(s: Copies, r: Round, id: string, started: real, timeout: int)
    requires Runs(s, id, started, timeout) && IsRound(s, r)
    requires r.now > started + timeout as real + 5.0
    ensures !IsActive(AfterRound(s, r), id)
  {
    AfterKeepsRuns(s, r.between, id, started, timeout);
    var remaining := Remaining(After(s, r.between).memory, r.cutoff);
    if id in remaining { ActiveAfterTick(remaining, r.connections, r.now, r.clocks, id); }
  }

  /** With ticks at most `d` apart, a job is finished within timeout + 5 s + d of
      its dispatch, whatever the device does and whatever happens in between. */
  lemma {:induction false} DoneByDeadline(s: Copies, rounds: seq<Round>, d: real, id: string, started: real,
                                          timeout: int)
    requires Runs(s, id, started, timeout) && AreRounds(s, rounds) && Spaced(rounds, d) && rounds != []
    requires rounds[0].now <= started + timeout as real + 5.0 + d
    requires rounds[|rounds| - 1].now > started + timeout as real + 5.0
    ensures DoneBy(s, rounds, id, started + timeout as real + 5.0 + d)
    decreases |rounds|
  {
    if rounds[0].now > started + timeout as real + 5.0 {
      LateTickFinishes(s, rounds[0], id, started, timeout);
    } else {
      var rest := rounds[1..];
      AfterKeepsRuns(s, rounds[0].between, id, started, timeout);
      AfterKeepsRuns(After(s, rounds[0].between), rounds[0].tick, id, started, timeout);
      assert forall k | 0 < k < |rest| :: rest[k] == rounds[k + 1] && rest[k - 1] == rounds[k];
      DoneByDeadline(AfterRound(s, rounds[0]), rest, d, id, started, timeout);
    }
  }
}
