/** Waiting for a job under one deadline (driver/rmm.py). */
module Polling {
  import opened Wrappers

  const MIN_POLL_INTERVAL_SECONDS := 0.25
  const TERMINAL_STATES := {"Completed", "TimedOut", "Unreachable", "Failed"}

  datatype Job = Job(state: string, body: string)

  datatype Error = DeadlineElapsed | RequestFailed

  function Min(a: real, b: real): real { if a < b then a else b }

  function Max(a: real, b: real): real { if a > b then a else b }

  function Ceiling(x: real): int { -((-x).Floor) }

  /** The most polls a wait of `seconds` can take. */
  function MostPolls(seconds: real): nat {
    if seconds <= 0.0 then 0 else Ceiling(seconds / MIN_POLL_INTERVAL_SECONDS)
  }

  /** One HTTP request: whether it posts a job or asks about one, how long it may
      take, when it was sent and answered, and what came back. */
  datatype Exchange = Exchange(post: bool, timeout: real, sentAt: real, answeredAt: real, reply: Result<Job, Error>)

  predicate IsTerminal(reply: Result<Job, Error>) {
    reply.Success? && reply.value.state in {"Completed", "TimedOut", "Unreachable", "Failed"}
  }

  /** The time allowed for a request: at most what was left until the deadline when the
      one before was answered, and `first` for the first; and all that was left when it
      was sent, unless that is more than ten seconds. The floor is 1 ms. */
  predicate InTimeAt(expiresAt: real, first: real, made: seq<Exchange>, k: nat)
    requires k < |made|
  {
    && Max(0.001, Min(10.0, expiresAt - made[k].sentAt)) <= made[k].timeout
    && made[k].timeout <= Max(0.001, if k == 0 then first else expiresAt - made[k - 1].answeredAt)
  }

  /** No request is given more time than was left. */
  ghost predicate InTime(expiresAt: real, first: real, made: seq<Exchange>) {
    forall k | 0 <= k < |made| :: InTimeAt(expiresAt, first, made, k)
  }

  /** One poll after the request before it. */
  predicate PollAt(start: real, made: seq<Exchange>, k: nat)
    requires k < |made|
  {
    && !made[k].post && made[k].sentAt <= made[k].answeredAt
    && (if k == 0 then start else made[k - 1].answeredAt) <= made[k].sentAt
  }

  predicate IsPending(reply: Result<Job, Error>) {
    reply.Success? && !IsTerminal(reply)
  }

  /** Polls one after the other, of which only the last may have ended the wait. */
  ghost predicate Polls(start: real, made: seq<Exchange>) {
    && (forall k | 0 <= k < |made| :: PollAt(start, made, k))
    && forall k | 0 <= k < |made| - 1 :: IsPending(made[k].reply)
  }

  /** What the wait returns: the first terminal answer, the first failure, or that time ran out. */
  predicate EndsWith(made: seq<Exchange>, r: Result<Job, Error>) {
    r == if made != [] && !IsPending(made[|made| - 1].reply) then made[|made| - 1].reply else Failure(DeadlineElapsed)
  }

  /** The clock and the control plane as one caller sees them: any time may pass
      between two reads, a request may take any time and answer anything, and a
      sleep never ends early. */
  class Session {
    var now: real
    ghost var requests: seq<Exchange>
    ghost var asleep: real

    constructor ()
      ensures requests == []
    {
      now := *;
      requests := [];
    }

    /** time.monotonic() */
    method Monotonic() returns (t: real)
      modifies this`now
      ensures t == now >= old(now)
    {
      var passed: real :| passed >= 0.0;
      now := now + passed;
      t := now;
    }

    method Sleep(seconds: real)
      requires seconds >= 0.0
      modifies this`now, this`asleep
      ensures now >= old(now) + seconds && asleep == old(asleep) + seconds
    {
      var late: real :| late >= 0.0;
      now := now + seconds + late;
      asleep := asleep + seconds;
    }

    /** _request: never less than a millisecond. */
    method Request(post: bool, timeout: real) returns (reply: Result<Job, Error>)
      modifies this`now, this`requests
      ensures |requests| == |old(requests)| + 1 && requests == old(requests) + [requests[|old(requests)|]]
      ensures var made := requests[|old(requests)|];
              && made.post == post && made.timeout == Max(0.001, timeout) && made.reply == reply
              && old(now) <= made.sentAt <= made.answeredAt <= now
      ensures reply.Failure? ==> reply.error == RequestFailed
    {
      var effective := Max(0.001, timeout);
      var before: real, taken: real :| before >= 0.0 && taken >= 0.0;
      var job: Job := *;
      var answered: bool := *;
      reply := if answered then Success(job) else Failure(RequestFailed);
      requests := requests + [Exchange(post, effective, now + before, now + before + taken, reply)];
      now := now + before + taken;
    }

    /** _remaining */
    method Remaining(expiresAt: real) returns (r: Result<real, Error>)
      modifies this`now
      ensures now >= old(now)
      ensures r == if expiresAt - now <= 0.0 then Failure(DeadlineElapsed) else Success(expiresAt - now)
    {
      var t := Monotonic();
      r := if expiresAt - t <= 0.0 then Failure(DeadlineElapsed) else Success(expiresAt - t);
    }

    /** _await_terminal */
    method AwaitTerminal(expiresAt: real) returns (r: Result<Job, Error>)
      modifies this
      ensures now >= old(now)
      ensures |requests| >= |old(requests)| && requests[..|old(requests)|] == old(requests)
      ensures var made := requests[|old(requests)|..];
              && InTime(expiresAt, expiresAt - old(now), made) && Polls(old(now), made) && EndsWith(made, r)
              && |made| <= MostPolls(expiresAt - old(now))
              && asleep <= old(asleep) + |made| as real * 0.25
      ensures r == Failure(DeadlineElapsed) ==> now >= expiresAt
      ensures r.Success? ==> r.value.state in {"Completed", "TimedOut", "Unreachable", "Failed"}
    {
      ghost var start, most := now, MostPolls(expiresAt - now);
      ghost var made: seq<Exchange> := [];
      hide InTime, Polls, MostPolls, PollAt, InTimeAt;
      NoPollYet(expiresAt, start);
      while true
        invariant |made| <= most && requests == old(requests) + made
        invariant start <= now && Last(start, made) <= now
        invariant now < expiresAt ==> now >= start + |made| as real * MIN_POLL_INTERVAL_SECONDS
        invariant InTime(expiresAt, expiresAt - start, made) && Polls(start, made) && StillWaiting(made)
        invariant asleep <= old(asleep) + |made| as real * MIN_POLL_INTERVAL_SECONDS
        decreases most - |made|
      {
        var t := Monotonic();
        var remaining := expiresAt - t;
        if remaining <= 0.0 {
          assert requests[|old(requests)|..] == made;
          return Failure(DeadlineElapsed);
        }
        OneMorePoll(expiresAt - start, |made|);
        var waitMs := (Min(remaining, 15.0) * 1000.0).Floor;
        var askedAt := Monotonic();
        var reply := Request(false, Min(remaining, waitMs as real / 1000.0 + 10.0));
        ghost var next := requests[|requests| - 1];
        OneMore(expiresAt, start, made, next, t);
        made := made + [next];
        assert requests[|old(requests)|..] == made;
        assert made[|made| - 1].reply == reply;
        if reply.Failure? { return Failure(reply.error); }
        if reply.value.state in TERMINAL_STATES { return reply; }
        Pace(askedAt, expiresAt);
      }
    }

    /** A poll that was answered too fast is followed by a pause. */
    method Pace(askedAt: real, expiresAt: real)
      requires askedAt <= now
      modifies this`now, this`asleep
      ensures now >= old(now) && (now < expiresAt ==> now >= askedAt + MIN_POLL_INTERVAL_SECONDS)
      ensures asleep <= old(asleep) + MIN_POLL_INTERVAL_SECONDS
    {
      var answeredAt := Monotonic();
      var elapsed := answeredAt - askedAt;
      if elapsed < MIN_POLL_INTERVAL_SECONDS {
        var left := Monotonic();
        Sleep(Min(MIN_POLL_INTERVAL_SECONDS - elapsed, Max(0.0, expiresAt - left)));
      }
    }

    /** Posts a job and waits for it, all under one deadline. */
    method PostAndWait(deadline: real) returns (r: Result<Job, Error>)
      modifies this
      ensures |requests| >= |old(requests)| && requests[..|old(requests)|] == old(requests)
      ensures Covered(old(now), deadline, requests[|old(requests)|..], r)
      ensures r == Failure(DeadlineElapsed) ==> now >= old(now) + deadline
      ensures asleep <= old(asleep) + (|requests| - |old(requests)|) as real * 0.25
    {
      ghost var start := now;
      var t := Monotonic();
      var expiresAt := t + deadline;
      var left := Remaining(expiresAt);
      if left.Failure? {
        assert CoveredBy(start, deadline, expiresAt, requests[|old(requests)|..], Failure(left.error));
        return Failure(left.error);
      }
      var dispatch := Request(true, left.value);
      ghost var first := requests[|old(requests)|];
      if dispatch.Failure? {
        assert requests[|old(requests)|..] == [first];
        assert CoveredBy(start, deadline, expiresAt, requests[|old(requests)|..], Failure(dispatch.error));
        return Failure(dispatch.error);
      }
      ghost var answered, before := now, requests;
      hide Covered, CoveredBy, InTime, Polls, EndsWith, MostPolls;
      r := AwaitTerminal(expiresAt);
      ghost var polls := requests[|before|..];
      assert requests == before + polls && before == old(requests) + [first];
      assert requests == old(requests) + ([first] + polls);
      assert requests[|old(requests)|..] == [first] + polls && requests[..|old(requests)|] == old(requests);
      MostPollsGrows(expiresAt - answered, deadline);
      PostThenPolls(start, deadline, expiresAt, answered, first, polls, r);
    }

    /** run_raw: an absent or zero deadline means the script's timeout and half a minute. */
    method RunRaw(timeoutSeconds: int, deadlineSeconds: Option<real>) returns (r: Result<Job, Error>)
      modifies this
      ensures |requests| >= |old(requests)| && requests[..|old(requests)|] == old(requests)
      ensures var deadline := if deadlineSeconds.Some? && deadlineSeconds.value != 0.0 then deadlineSeconds.value
                              else timeoutSeconds as real + 30.0;
              && Covered(old(now), deadline, requests[|old(requests)|..], r)
              && (r == Failure(DeadlineElapsed) ==> now >= old(now) + deadline)
      ensures asleep <= old(asleep) + (|requests| - |old(requests)|) as real * 0.25
    {
      r := PostAndWait(Deadline(timeoutSeconds, 30, deadlineSeconds));
    }

    /** run_diagnostic: the same with a quarter of a minute. */
    method RunDiagnostic(timeoutSeconds: int, deadlineSeconds: Option<real>) returns (r: Result<Job, Error>)
      modifies this
      ensures |requests| >= |old(requests)| && requests[..|old(requests)|] == old(requests)
      ensures var deadline := if deadlineSeconds.Some? && deadlineSeconds.value != 0.0 then deadlineSeconds.value
                              else timeoutSeconds as real + 15.0;
              && Covered(old(now), deadline, requests[|old(requests)|..], r)
              && (r == Failure(DeadlineElapsed) ==> now >= old(now) + deadline)
      ensures asleep <= old(asleep) + (|requests| - |old(requests)|) as real * 0.25
    {
      r := PostAndWait(Deadline(timeoutSeconds, 15, deadlineSeconds));
    }
  }

  function Deadline(timeoutSeconds: int, slack: int, deadlineSeconds: Option<real>): real {
    if deadlineSeconds.Some? && deadlineSeconds.value != 0.0 then deadlineSeconds.value
    else (timeoutSeconds + slack) as real
  }

  /** One expiry, `deadline` after a moment between the call and its first request, covers
      the post and every poll: at most one post, first, given no more than the deadline;
      no poll unless it was accepted; each poll given no more than was left when the
      request before it was answered; and the result is what the requests came to. */
  ghost predicate CoveredBy(start: real, deadline: real, expiresAt: real, made: seq<Exchange>, r: Result<Job, Error>) {
    && start + deadline <= expiresAt
    && InTime(expiresAt, deadline, made)
    && if made == [] then r == Failure(DeadlineElapsed)
       else
         && made[0].post && made[0].sentAt <= made[0].answeredAt && expiresAt <= made[0].sentAt + deadline
         && |made| <= 1 + MostPolls(deadline)
         && if made[0].reply.Failure? then |made| == 1 && r == made[0].reply
            else Polls(made[0].answeredAt, made[1..]) && EndsWith(made[1..], r)
  }

  ghost predicate Covered(start: real, deadline: real, made: seq<Exchange>, r: Result<Job, Error>) {
    exists expiresAt :: CoveredBy(start, deadline, expiresAt, made, r)
  }

  /** When the last request was answered. */
  function Last(start: real, made: seq<Exchange>): real {
    if made == [] then start else made[|made| - 1].answeredAt
  }

  predicate StillWaiting(made: seq<Exchange>) {
    made != [] ==> IsPending(made[|made| - 1].reply)
  }

  lemma NoPollYet(expiresAt: real, start: real)
    ensures InTime(expiresAt, expiresAt - start, []) && Polls(start, [])
  {
  }

  lemma OneMore(expiresAt: real, start: real, made: seq<Exchange>, next: Exchange, t: real)
    requires InTime(expiresAt, expiresAt - start, made) && Polls(start, made) && StillWaiting(made)
    requires Last(start, made) <= t <= next.sentAt <= next.answeredAt && !next.post
    requires Max(0.001, Min(10.0, expiresAt - next.sentAt)) <= next.timeout <= Max(0.001, expiresAt - t)
    ensures InTime(expiresAt, expiresAt - start, made + [next]) && Polls(start, made + [next])
  {
    var all, first := made + [next], expiresAt - start;
    forall k | 0 <= k < |all| ensures InTimeAt(expiresAt, first, all, k) {
      if k < |made| { assert InTimeAt(expiresAt, first, made, k); }
    }
    forall k | 0 <= k < |all| ensures PollAt(start, all, k) {
      if k < |made| { assert PollAt(start, made, k); }
    }
    forall k | 0 <= k < |made| ensures IsPending(all[k].reply) {
      assert all[k] == made[k];
    }
  }

  lemma PostThenPolls(start: real, deadline: real, expiresAt: real, answered: real, first: Exchange,
                      polls: seq<Exchange>, r: Result<Job, Error>)
    requires start + deadline <= expiresAt && first.post && first.reply.Success?
    requires first.sentAt <= first.answeredAt <= answered && expiresAt <= first.sentAt + deadline
    requires Max(0.001, Min(10.0, expiresAt - first.sentAt)) <= first.timeout <= Max(0.001, deadline)
    requires InTime(expiresAt, expiresAt - answered, polls) && Polls(answered, polls) && EndsWith(polls, r)
    requires |polls| <= MostPolls(deadline)
    ensures Covered(start, deadline, [first] + polls, r)
  {
    var made := [first] + polls;
    assert made[1..] == polls;
    forall k | 0 <= k < |polls| ensures PollAt(first.answeredAt, polls, k) {
      assert PollAt(answered, polls, k);
    }
    forall k | 0 <= k < |made| ensures InTimeAt(expiresAt, deadline, made, k) {
      if k > 0 { assert InTimeAt(expiresAt, expiresAt - answered, polls, k - 1); }
    }
    assert CoveredBy(start, deadline, expiresAt, made, r);
  }

  /** Quarter seconds, rounded up. */
  lemma MostPollsExactly(seconds: real)
    ensures var n := MostPolls(seconds);
            n as real * 0.25 >= seconds && (n > 0 ==> (n - 1) as real * 0.25 < seconds)
  {
    if seconds > 0.0 {
      var x := seconds / MIN_POLL_INTERVAL_SECONDS;
      assert x * 0.25 == seconds;
      assert -x - 1.0 < (-x).Floor as real <= -x;
    }
  }

  lemma OneMorePoll(seconds: real, polls: nat)
    requires polls as real * MIN_POLL_INTERVAL_SECONDS < seconds
    ensures polls + 1 <= MostPolls(seconds)
  {
    assert seconds / MIN_POLL_INTERVAL_SECONDS > polls as real;
  }

  lemma MostPollsGrows(a: real, b: real)
    requires a <= b
    ensures MostPolls(a) <= MostPolls(b)
  {
    assert a / MIN_POLL_INTERVAL_SECONDS <= b / MIN_POLL_INTERVAL_SECONDS;
  }
}
