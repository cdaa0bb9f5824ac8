/** The diagnosis loop (driver/investigator.py), driven by a model that may
    reply anything. */
module Investigator {
  import opened Wrappers
  import opened Signatures
  import opened Limits

  /** Arguments of a tool call: a JSON object, or anything that was not one. */
  datatype CallArguments = Object(items: Items) | InvalidJson

  /** What becomes of a call that the budget allows. */
  datatype Outcome =
    | BadArguments                           // not built: nothing is dispatched
    | NotCompleted                           // dispatched, and an RmmError came back
    | Ran(succeeded: bool, outputSize: int)  // dispatched, and a result came back
    | Crashed                                // dispatched, and an unexpected exception escaped

  datatype ToolCall = ToolCall(id: string, name: string, arguments: CallArguments, elapsed: real, outcome: Outcome)

  /** One turn of the loop: the clock at its start and what the model did. */
  datatype Turn = Turn(elapsed: real, reply: Option<Reply>)

  datatype Reply = Reply(text: string, calls: seq<ToolCall>)

  datatype Step = NotJson | Stopped(exceeded: Exceeded) | Attempted(succeeded: bool)

  datatype Message = System | User | Assistant(ids: seq<string>) | Tool(id: string)

  datatype Ending =
    | TimeLimit | ModelUnavailable | Concluded | BudgetReached(exceeded: Exceeded)
    | Raised                                 // an unexpected exception left the loop
    | Ongoing                                // every turn given so far was taken

  datatype Investigation = Investigation(finding: Option<string>, ending: Ending, steps: seq<Step>,
                                         messages: seq<Message>, usage: Usage, dispatched: nat)

  function Ids(calls: seq<ToolCall>): seq<string> {
    seq(|calls|, k requires 0 <= k < |calls| => calls[k].id)
  }

  /** The control plane's client: `calls` counts run_diagnostic, each of which
      posts at most one job. */
  class Client {
    var calls: nat

    constructor ()
      ensures calls == 0
    {
      calls := 0;
    }

    method RunDiagnostic()
      modifies this
      ensures calls == old(calls) + 1
    {
      calls := calls + 1;
    }
  }

  /** What one call comes to: its step (none is an escaping exception), what is
      spent after it and how many dispatches it makes. */
  function Taken(b: Bounds, u: Usage, call: ToolCall): (r: (Option<Step>, Usage, nat)) {
    if call.arguments.InvalidJson? then (Some(NotJson), u, 0)
    else
      var items := call.arguments.items;
      var refusal := Refusal(b, u, call.name, items, call.elapsed);
      if refusal.Some? then (Some(Stopped(refusal.value)), u, 0)
      else
        match call.outcome
        case BadArguments => (Some(Attempted(false)), Recorded(u, call.name, items, false, 0), 0)
        case NotCompleted => (Some(Attempted(false)), Recorded(u, call.name, items, false, 0), 1)
        case Ran(ok, size) => (Some(Attempted(ok)), Recorded(u, call.name, items, ok, size), 1)
        case Crashed => (None, u, 1)
  }

  lemma TakenKeepsWithin(b: Bounds, u: Usage, call: ToolCall)
    requires Within(b, u)
    ensures Within(b, Taken(b, u, call).1)
    ensures Taken(b, u, call).0.None? ==> u.attempts < Most(b)
    ensures var (step, after, dispatched) := Taken(b, u, call);
            && after.attempts == u.attempts + (if step.Some? && step.value.Attempted? then 1 else 0)
            && dispatched <= if step.None? || step.value.Attempted? then 1 else 0
  {
    if call.arguments.Object? && Refusal(b, u, call.name, call.arguments.items, call.elapsed).None? {
      RecordKeepsWithin(b, u, call.name, call.arguments.items, call.elapsed,
                        call.outcome.Ran? && call.outcome.succeeded,
                        if call.outcome.Ran? then call.outcome.outputSize else 0);
    }
  }

  /** One call, in its own terms: one that was no JSON or that the budget refuses changes
      nothing; an escaping exception leaves a dispatch that was never recorded; any other
      call is one attempt, succeeded exactly if its result did, and dispatched unless its
      arguments could not be built. */
  ghost predicate TakesOne(b: Bounds, u: Usage, call: ToolCall, step: Option<Step>, after: Usage, dispatched: int) {
    if call.arguments.InvalidJson? then step == Some(NotJson) && after == u && dispatched == 0
    else
      var refusal := Refusal(b, u, call.name, call.arguments.items, call.elapsed);
      if refusal.Some? then step == Some(Stopped(refusal.value)) && after == u && dispatched == 0
      else if call.outcome.Crashed? then step == None && after == u && dispatched == 1
      else
        && step.Some? && step.value.Attempted?
        && (step.value.succeeded <==> call.outcome.Ran? && call.outcome.succeeded)
        && after == Recorded(u, call.name, call.arguments.items, step.value.succeeded,
                             if call.outcome.Ran? then call.outcome.outputSize else 0)
        && dispatched == if call.outcome.BadArguments? then 0 else 1
  }

  /** Validates and dispatches one requested diagnostic. */
  method RunOne(budget: Budget, client: Client, call: ToolCall) returns (step: Option<Step>)
    modifies budget, client
    ensures TakesOne(budget.bounds, old(budget.Spent()), call, step, budget.Spent(),
                     client.calls as int - old(client.calls))
    ensures (step, budget.Spent(), client.calls as int - old(client.calls))
              == Taken(budget.bounds, old(budget.Spent()), call)
  {
    if call.arguments.InvalidJson? { return Some(NotJson); }
    var items := call.arguments.items;
    var exceeded := budget.Check(call.name, items, call.elapsed);
    if exceeded.Some? { return Some(Stopped(exceeded.value)); }
    if call.outcome.BadArguments? {
      budget.RecordAttempt(call.name, items, false, 0);
      return Some(Attempted(false));
    }
    client.RunDiagnostic();
    if call.outcome.Crashed? { return None; }
    var ok := call.outcome.Ran? && call.outcome.succeeded;
    var size := if call.outcome.Ran? then call.outcome.outputSize else 0;
    budget.RecordAttempt(call.name, items, ok, size);
    return Some(Attempted(ok));
  }

  // ---------- what the transcript looks like ----------

  /** The model's tool calls are each answered, in order, right after they are made. */
  ghost predicate Answered(messages: seq<Message>) {
    forall k | 0 <= k < |messages| && messages[k].Assistant? ::
      AnsweredAt(messages, k, |messages[k].ids|)
  }

  ghost predicate AnsweredAt(messages: seq<Message>, k: nat, n: nat)
    requires k < |messages| && messages[k].Assistant? && n <= |messages[k].ids|
  {
    k + n < |messages| && forall j | 0 <= j < n :: messages[k + 1 + j] == Tool(messages[k].ids[j])
  }

  function Attempts(steps: seq<Step>): nat {
    if steps == [] then 0
    else Attempts(steps[..|steps| - 1]) + if steps[|steps| - 1].Attempted? then 1 else 0
  }

  /** What the calls of one reply come to: an exception ends them, a refusal does not. */
  function TakenAll(b: Bounds, u: Usage, calls: seq<ToolCall>): (r: (seq<Step>, Usage, nat, bool)) {
    if calls == [] then ([], u, 0, false)
    else
      var (steps, before, dispatched, raised) := TakenAll(b, u, calls[..|calls| - 1]);
      if raised then (steps, before, dispatched, true)
      else
        var (step, after, more) := Taken(b, before, calls[|calls| - 1]);
        (if step.Some? then steps + [step.value] else steps, after, dispatched + more, step.None?)
  }

  /** The last refusal, if any. */
  function LastStop(steps: seq<Step>): Option<Exceeded> {
    if steps == [] then None
    else if steps[|steps| - 1].Stopped? then Some(steps[|steps| - 1].exceeded)
    else LastStop(steps[..|steps| - 1])
  }

  lemma {:induction false} TakenAllKeepsWithin(b: Bounds, u: Usage, calls: seq<ToolCall>)
    requires Within(b, u)
    ensures var (steps, after, dispatched, raised) := TakenAll(b, u, calls);
            && Within(b, after) && |steps| <= |calls| && (!raised ==> |steps| == |calls|)
            && after.attempts == u.attempts + Attempts(steps)
            && dispatched <= Attempts(steps) + (if raised then 1 else 0)
            && (raised ==> after.attempts < Most(b))
  {
    if calls != [] {
      TakenAllKeepsWithin(b, u, calls[..|calls| - 1]);
      var (steps, before, dispatched, raised) := TakenAll(b, u, calls[..|calls| - 1]);
      if !raised {
        TakenKeepsWithin(b, before, calls[|calls| - 1]);
        var step := Taken(b, before, calls[|calls| - 1]).0;
        if step.Some? { assert (steps + [step.value])[..|steps|] == steps; }
      }
    }
  }

  lemma {:induction false} RaisedStays(b: Bounds, u: Usage, calls: seq<ToolCall>, k: nat)
    requires k <= |calls| && TakenAll(b, u, calls[..k]).3
    ensures TakenAll(b, u, calls) == TakenAll(b, u, calls[..k])
  {
    if k < |calls| {
      assert calls[..|calls| - 1][..k] == calls[..k];
      RaisedStays(b, u, calls[..|calls| - 1], k);
    } else {
      assert calls[..k] == calls;
    }
  }

  lemma LastStopSnoc(steps: seq<Step>, step: Step)
    ensures LastStop(steps + [step]) == if step.Stopped? then Some(step.exceeded) else LastStop(steps)
  {
    assert (steps + [step])[..|steps|] == steps;
  }

  lemma TakenNext(b: Bounds, u: Usage, calls: seq<ToolCall>, k: nat, steps: seq<Step>, before: Usage, dispatched: nat)
    requires k < |calls| && SoFar(b, u, calls, k, steps, before, dispatched)
    ensures var (step, after, more) := Taken(b, before, calls[k]);
            if step.Some? then SoFar(b, u, calls, k + 1, steps + [step.value], after, dispatched + more)
            else TakenAll(b, u, calls[..k + 1]) == (steps, after, dispatched + more, true)
  {
    hide Taken;
    var upTo := calls[..k + 1];
    assert upTo[|upTo| - 1] == calls[k] && upTo[..|upTo| - 1] == calls[..k];
    var step := Taken(b, before, calls[k]).0;
    assert TakenAll(b, u, upTo).3 == step.None?;
  }

  /** All calls of one reply, in order, even after a refusal. */
  method RunCalls(budget: Budget, client: Client, calls: seq<ToolCall>)
    returns (steps: seq<Step>, answers: seq<Message>, stop: Option<Exceeded>, raised: bool)
    modifies budget, client
    ensures (steps, budget.Spent(), client.calls as int - old(client.calls), raised)
              == TakenAll(budget.bounds, old(budget.Spent()), calls)
    ensures |answers| == |steps| <= |calls| && (!raised ==> |steps| == |calls|)
    ensures forall k | 0 <= k < |answers| :: answers[k] == Tool(calls[k].id)
    ensures stop == LastStop(steps)
  {
    steps, answers, stop, raised := [], [], None, false;
    ghost var b, u, made := budget.bounds, budget.Spent(), client.calls;
    var k := 0;
    NoneTaken(b, u, calls);
    hide Taken, TakenAll, LastStop, SoFar;
    while k < |calls|
      invariant k <= |calls| && |steps| == |answers| == k && client.calls >= made
      invariant SoFar(b, u, calls, k, steps, budget.Spent(), client.calls - made)
      invariant forall j | 0 <= j < |answers| :: answers[j] == Tool(calls[j].id)
      invariant stop == LastStop(steps)
    {
      var step := RunNext(budget, client, calls, k, u, made, steps);
      if step.None? {
        raised := true;
        return;
      }
      LastStopSnoc(steps, step.value);
      steps := steps + [step.value];
      answers := answers + [Tool(calls[k].id)];
      if step.value.Stopped? { stop := Some(step.value.exceeded); }
      k := k + 1;
    }
    AllTaken(b, u, calls, steps, budget.Spent(), client.calls - made);
  }

  /** One turn of that loop. */
  method RunNext(budget: Budget, client: Client, calls: seq<ToolCall>, k: nat, ghost u: Usage, ghost made: nat,
                 ghost steps: seq<Step>) returns (step: Option<Step>)
    requires k < |calls| && client.calls >= made
    requires SoFar(budget.bounds, u, calls, k, steps, budget.Spent(), client.calls - made)
    modifies budget, client
    ensures client.calls >= made
    ensures step.Some? ==> SoFar(budget.bounds, u, calls, k + 1, steps + [step.value], budget.Spent(),
                                 client.calls - made)
    ensures step.None? ==> TakenAll(budget.bounds, u, calls) == (steps, budget.Spent(), client.calls - made, true)
  {
    TakenNext(budget.bounds, u, calls, k, steps, budget.Spent(), client.calls - made);
    hide SoFar, TakenAll, Taken;
    step := RunOne(budget, client, calls[k]);
    if step.None? { RaisedStays(budget.bounds, u, calls, k + 1); }
  }

  /** The first `k` calls were taken, without an exception. */
  ghost predicate SoFar(b: Bounds, u: Usage, calls: seq<ToolCall>, k: nat, steps: seq<Step>, after: Usage,
                        dispatched: nat) {
    k <= |calls| && TakenAll(b, u, calls[..k]) == (steps, after, dispatched, false)
  }

  lemma NoneTaken(b: Bounds, u: Usage, calls: seq<ToolCall>)
    ensures SoFar(b, u, calls, 0, [], u, 0) && LastStop([]) == None
  {
  }

  lemma AllTaken(b: Bounds, u: Usage, calls: seq<ToolCall>, steps: seq<Step>, after: Usage, dispatched: nat)
    requires SoFar(b, u, calls, |calls|, steps, after, dispatched)
    ensures TakenAll(b, u, calls) == (steps, after, dispatched, false)
  {
    assert calls[..|calls|] == calls;
  }

  lemma AttemptsJoin(a: seq<Step>, b: seq<Step>)
    ensures Attempts(a + b) == Attempts(a) + Attempts(b)
  {
    if b == [] {
      assert a + b == a;
    } else {
      assert (a + b)[..|a + b| - 1] == a + b[..|b| - 1];
      AttemptsJoin(a, b[..|b| - 1]);
    }
  }

  lemma TurnAnswered(ids: seq<string>, answers: seq<Message>, more: seq<Message>)
    requires |answers| == |ids| && forall k | 0 <= k < |ids| :: answers[k] == Tool(ids[k])
    requires forall k | 0 <= k < |more| :: more[k].User?
    ensures Answered([Assistant(ids)] + answers + more)
  {
    var all := [Assistant(ids)] + answers + more;
    assert forall j | 0 <= j < |ids| :: all[1 + j] == answers[j];
    forall k | 0 <= k < |all| && all[k].Assistant? ensures AnsweredAt(all, k, |all[k].ids|) {
      assert k == 0;
    }
  }

  lemma AnsweredJoin(messages: seq<Message>, said: seq<Message>)
    requires Answered(messages) && Answered(said)
    ensures Answered(messages + said)
  {
    var all := messages + said;
    forall k | 0 <= k < |all| && all[k].Assistant? ensures AnsweredAt(all, k, |all[k].ids|) {
      if k < |messages| {
        assert AnsweredAt(messages, k, |messages[k].ids|);
      } else {
        var j := k - |messages|;
        assert AnsweredAt(said, j, |said[j].ids|);
        assert forall i | 0 <= i < |said| :: all[|messages| + i] == said[i];
      }
    }
  }

  // ---------- the loop ----------

  /** The calls a turn makes: none when the loop ends before it asks for them. */
  function Calls(b: Bounds, turn: Turn): seq<ToolCall> {
    if turn.elapsed >= b.maxWallClockSeconds || turn.reply.None? then [] else turn.reply.value.calls
  }

  /** What the calls of all these turns come to, one turn after the other. */
  function TakenOver(b: Bounds, turns: seq<Turn>): (seq<Step>, Usage, nat, bool) {
    if turns == [] then ([], UNUSED, 0, false)
    else
      var (steps, before, dispatched, _) := TakenOver(b, turns[..|turns| - 1]);
      var (more, after, made, raised) := TakenAll(b, before, Calls(b, turns[|turns| - 1]));
      (steps + more, after, dispatched + made, raised)
  }

  /** How a turn ends the loop and what is then found, if it does. */
  function EndingOf(b: Bounds, before: Usage, turn: Turn, lastWord: Option<string>): Option<(Ending, Option<string>)> {
    if turn.elapsed >= b.maxWallClockSeconds then Some((TimeLimit, None))
    else if turn.reply.None? then Some((ModelUnavailable, None))
    else if turn.reply.value.calls == [] then Some((Concluded, Some(turn.reply.value.text)))
    else
      var (steps, _, _, raised) := TakenAll(b, before, turn.reply.value.calls);
      if raised then Some((Raised, None))
      else if LastStop(steps).Some? then Some((BudgetReached(LastStop(steps).value), lastWord))
      else None
  }

  function EndingAt(b: Bounds, turns: seq<Turn>, k: nat, lastWord: Option<string>): Option<(Ending, Option<string>)>
    requires k < |turns|
  {
    EndingOf(b, TakenOver(b, turns[..k]).1, turns[k], lastWord)
  }

  /** The result of a loop that `n` turns did not end and the next one, if there is one, did. */
  ghost predicate EndsAfter(b: Bounds, turns: seq<Turn>, lastWord: Option<string>, n: nat, r: Investigation) {
    && n <= |turns| && (forall k | 0 <= k < n :: EndingAt(b, turns, k, lastWord).None?)
    && (if n == |turns| then r.ending.Ongoing? && r.finding.None?
        else EndingAt(b, turns, n, lastWord) == Some((r.ending, r.finding)))
    && var (steps, usage, dispatched, _) := TakenOver(b, turns[..if n == |turns| then n else n + 1]);
       (r.steps, r.usage, r.dispatched) == (steps, usage, dispatched)
  }

  /** What the ending and the finding say of the turn that ended the loop: out of time, no
      model, a conclusion in its own words, or its calls: an exception, or the last refusal,
      after which the last word is the finding. */
  ghost predicate EndsAs(b: Bounds, turns: seq<Turn>, lastWord: Option<string>, n: nat, r: Investigation) {
    if n >= |turns| then r.ending == Ongoing && r.finding == None
    else
      var turn := turns[n];
      var late, silent := turn.elapsed >= b.maxWallClockSeconds, turn.reply.None?;
      var done := !silent && turn.reply.value.calls == [];
      && (r.ending == TimeLimit <==> late)
      && (r.ending == ModelUnavailable <==> !late && silent)
      && (r.ending == Concluded <==> !late && done)
      && (!late && !silent && !done ==> r.ending.Raised? || r.ending.BudgetReached?)
      && (r.ending.BudgetReached? ==> LastStop(r.steps) == Some(r.ending.exceeded))
      && r.finding == match r.ending
                      case Concluded => Some(turn.reply.value.text)
                      case BudgetReached(_) => lastWord
                      case _ => None
  }

  lemma EndsAfterMeans(b: Bounds, turns: seq<Turn>, lastWord: Option<string>, n: nat, r: Investigation)
    requires EndsAfter(b, turns, lastWord, n, r)
    ensures EndsAs(b, turns, lastWord, n, r)
  {
    if n < |turns| {
      TakenOverNext(b, turns, n);
      var (steps, before, _, _) := TakenOver(b, turns[..n]);
      LastStopJoin(steps, TakenAll(b, before, Calls(b, turns[n])).0);
      hide TakenAll, LastStop, TakenOver;
    }
  }

  lemma {:induction false} LastStopJoin(a: seq<Step>, b: seq<Step>)
    ensures LastStop(b).Some? ==> LastStop(a + b) == LastStop(b)
  {
    if b != [] {
      assert (a + b)[..|a + b| - 1] == a + b[..|b| - 1];
      if !b[|b| - 1].Stopped? { LastStopJoin(a, b[..|b| - 1]); }
    }
  }

  /** The loop ends at the first turn that ends it, with what the calls until then come to. */
  ghost predicate LoopEnds(b: Bounds, turns: seq<Turn>, lastWord: Option<string>, r: Investigation) {
    exists n: nat :: EndsAfter(b, turns, lastWord, n, r) && EndsAs(b, turns, lastWord, n, r)
  }

  /** One more turn. */
  lemma TakenOverNext(b: Bounds, turns: seq<Turn>, k: nat)
    requires k < |turns|
    ensures var (steps, before, dispatched, _) := TakenOver(b, turns[..k]);
            var (more, after, made, raised) := TakenAll(b, before, Calls(b, turns[k]));
            TakenOver(b, turns[..k + 1]) == (steps + more, after, dispatched + made, raised)
  {
    var upTo := turns[..k + 1];
    assert upTo[..|upTo| - 1] == turns[..k] && upTo[|upTo| - 1] == turns[k];
  }

  /** The turns before one that ends the loop stay within the bounds, and that one too. */
  lemma {:induction false} TakenOverKeepsWithin(b: Bounds, turns: seq<Turn>, n: nat, lastWord: Option<string>)
    requires n <= |turns| && forall k | 0 <= k < n - 1 :: EndingAt(b, turns, k, lastWord).None?
    ensures var (steps, u, dispatched, raised) := TakenOver(b, turns[..n]);
            && Within(b, u) && u.attempts == Attempts(steps)
            && dispatched <= Attempts(steps) + (if raised then 1 else 0)
            && (raised ==> u.attempts < Most(b))
  {
    if n > 0 {
      TakenOverKeepsWithin(b, turns, n - 1, lastWord);
      TakenOverNext(b, turns, n - 1);
      if n > 1 { NotRaised(b, turns, n - 2, lastWord); }
      hide TakenOver, TakenAll, EndingAt, Within, Attempts;
      var (steps, before, _, earlier) := TakenOver(b, turns[..n - 1]);
      var calls := Calls(b, turns[n - 1]);
      TakenAllKeepsWithin(b, before, calls);
      AttemptsJoin(steps, TakenAll(b, before, calls).0);
    }
  }

  lemma NotRaised(b: Bounds, turns: seq<Turn>, k: nat, lastWord: Option<string>)
    requires k < |turns| && EndingAt(b, turns, k, lastWord).None?
    ensures !TakenOver(b, turns[..k + 1]).3
  {
    TakenOverNext(b, turns, k);
  }

  /** The first `k` turns did not end the loop, and this is what they came to. */
  ghost predicate Onward(b: Bounds, turns: seq<Turn>, lastWord: Option<string>, k: nat, steps: seq<Step>, u: Usage,
                         dispatched: int) {
    && k <= |turns| && (forall j | 0 <= j < k :: EndingAt(b, turns, j, lastWord).None?)
    && TakenOver(b, turns[..k]) == (steps, u, dispatched, false)
  }

  /** Within the bounds, and one dispatch an attempt but for one that raised. */
  ghost predicate Bounded(b: Bounds, r: Investigation) {
    && Within(b, r.usage) && r.dispatched <= Most(b) && r.usage.attempts == Attempts(r.steps)
    && r.dispatched <= r.usage.attempts + if r.ending.Raised? then 1 else 0
  }

  ghost predicate Result(b: Bounds, turns: seq<Turn>, lastWord: Option<string>, r: Investigation) {
    LoopEnds(b, turns, lastWord, r) && Bounded(b, r) && (!r.ending.Raised? ==> Answered(r.messages))
  }

  lemma OnwardToEnd(b: Bounds, turns: seq<Turn>, lastWord: Option<string>, r: Investigation)
    requires Onward(b, turns, lastWord, |turns|, r.steps, r.usage, r.dispatched) && r.ending.Ongoing? && r.finding.None?
    requires Answered(r.messages)
    ensures Result(b, turns, lastWord, r)
  {
    assert EndsAfter(b, turns, lastWord, |turns|, r);
    EndsAfterMeans(b, turns, lastWord, |turns|, r);
    BoundedAt(b, turns, lastWord, |turns|, false, r);
  }

  lemma OnwardNext(b: Bounds, turns: seq<Turn>, lastWord: Option<string>, k: nat, steps: seq<Step>, before: Usage,
                   dispatched: int, ran: seq<Step>, after: Usage, made: int, raised: bool)
    requires k < |turns| && Onward(b, turns, lastWord, k, steps, before, dispatched)
    requires (ran, after, made, raised) == TakenAll(b, before, Calls(b, turns[k]))
    ensures EndingAt(b, turns, k, lastWord) == EndingOf(b, before, turns[k], lastWord)
    ensures TakenOver(b, turns[..k + 1]) == (steps + ran, after, dispatched + made, raised)
    ensures EndingOf(b, before, turns[k], lastWord).None? ==>
              Onward(b, turns, lastWord, k + 1, steps + ran, after, dispatched + made)
  {
    TakenOverNext(b, turns, k);
    if raised { RaisedEnds(b, before, turns[k], lastWord); }
    hide TakenAll, LastStop, TakenOver, EndingOf, Calls;
  }

  lemma OnwardEnds(b: Bounds, turns: seq<Turn>, lastWord: Option<string>, k: nat, steps: seq<Step>, before: Usage,
                   dispatched: int, ran: seq<Step>, after: Usage, made: int, raised: bool, r: Investigation)
    requires k < |turns| && Onward(b, turns, lastWord, k, steps, before, dispatched)
    requires (ran, after, made, raised) == TakenAll(b, before, Calls(b, turns[k]))
    requires EndingOf(b, before, turns[k], lastWord) == Some((r.ending, r.finding))
    requires (r.steps, r.usage, r.dispatched as int) == (steps + ran, after, dispatched + made)
    requires !raised ==> Answered(r.messages)
    ensures Result(b, turns, lastWord, r)
  {
    OnwardNext(b, turns, lastWord, k, steps, before, dispatched, ran, after, made, raised);
    if raised { RaisedEnds(b, before, turns[k], lastWord); }
    hide TakenAll, TakenOver, EndingOf, EndingAt, Bounded, Calls, Answered;
    assert EndsAfter(b, turns, lastWord, k, r);
    EndsAfterMeans(b, turns, lastWord, k, r);
    BoundedAt(b, turns, lastWord, k + 1, raised, r);
  }

  lemma BoundedAt(b: Bounds, turns: seq<Turn>, lastWord: Option<string>, n: nat, raised: bool, r: Investigation)
    requires n <= |turns| && forall k | 0 <= k < n - 1 :: EndingAt(b, turns, k, lastWord).None?
    requires TakenOver(b, turns[..n]) == (r.steps, r.usage, r.dispatched, raised) && (raised ==> r.ending.Raised?)
    ensures Bounded(b, r)
  {
    TakenOverKeepsWithin(b, turns, n, lastWord);
  }

  lemma RaisedEnds(b: Bounds, before: Usage, turn: Turn, lastWord: Option<string>)
    requires TakenAll(b, before, Calls(b, turn)).3
    ensures EndingOf(b, before, turn, lastWord) == Some((Raised, None))
  {
  }

  /** One turn: how it ends the loop, if it does, the steps it took and what was said. */
  method TakeTurn(budget: Budget, client: Client, turn: Turn, lastWord: Option<string>)
    returns (ended: Option<(Ending, Option<string>)>, ran: seq<Step>, said: seq<Message>)
    modifies budget, client
    ensures ended == EndingOf(budget.bounds, old(budget.Spent()), turn, lastWord)
    ensures (ran, budget.Spent(), client.calls as int - old(client.calls), ended.Some? && ended.value.0.Raised?)
              == TakenAll(budget.bounds, old(budget.Spent()), Calls(budget.bounds, turn))
    ensures (ended.Some? && ended.value.0.Raised?) || Answered(said)
  {
    ran, said := [], [];
    ghost var b, u := budget.bounds, budget.Spent();
    assert TakenAll(b, u, []) == ([], u, 0, false);
    hide TakenAll, LastStop;
    if turn.elapsed >= budget.bounds.maxWallClockSeconds { return Some((TimeLimit, None)), ran, said; }
    if turn.reply.None? { return Some((ModelUnavailable, None)), ran, said; }
    var calls := turn.reply.value.calls;
    if calls == [] { return Some((Concluded, Some(turn.reply.value.text))), ran, said; }
    var answers, stop, raised;
    ran, answers, stop, raised := RunCalls(budget, client, calls);
    said := [Assistant(Ids(calls))] + answers;
    if raised { return Some((Raised, None)), ran, said; }
    hide Answered;
    if stop.Some? {
      TurnAnswered(Ids(calls), answers, [User]);
      return Some((BudgetReached(stop.value), lastWord)), ran, said + [User];
    }
    TurnAnswered(Ids(calls), answers, []);
    assert said + [] == said;
    return None, ran, said;
  }

  /** One turn of the loop: its result, or the steps and messages to go on with. */
  method TakeNext(budget: Budget, client: Client, turns: seq<Turn>, k: nat, lastWord: Option<string>, steps: seq<Step>,
                  messages: seq<Message>) returns (r: Option<Investigation>, more: seq<Step>, said: seq<Message>)
    requires k < |turns| && Answered(messages)
    requires Onward(budget.bounds, turns, lastWord, k, steps, budget.Spent(), client.calls)
    modifies budget, client
    ensures r.Some? ==> Result(budget.bounds, turns, lastWord, r.value)
    ensures r.None? ==>
              Onward(budget.bounds, turns, lastWord, k + 1, more, budget.Spent(), client.calls) && Answered(said)
  {
    ghost var u, calls := budget.Spent(), client.calls;
    hide *;
    var ended, ran, answers := TakeTurn(budget, client, turns[k], lastWord);
    ghost var made, raised := client.calls - calls, ended.Some? && ended.value.0.Raised?;
    more, said := steps + ran, messages + answers;
    if !raised { AnsweredJoin(messages, answers); }
    if ended.Some? {
      r := Some(Investigation(ended.value.1, ended.value.0, more, said, budget.Spent(), client.calls));
      OnwardEnds(budget.bounds, turns, lastWord, k, steps, u, calls, ran, budget.Spent(), made, raised, r.value);
    } else {
      r := None;
      OnwardNext(budget.bounds, turns, lastWord, k, steps, u, calls, ran, budget.Spent(), made, raised);
    }
  }

  /** For every sequence of turns: the loop ends at the first turn that ends it, with
      what the calls until then come to; and whatever the model replies, however many
      calls one reply makes, the dispatches stay below the bound. */
  method Investigate(bounds: Bounds, turns: seq<Turn>, lastWord: Option<string>) returns (r: Investigation)
    ensures LoopEnds(bounds, turns, lastWord, r)
    ensures Within(bounds, r.usage) && r.dispatched <= Most(bounds) && r.usage.attempts == Attempts(r.steps)
    ensures r.dispatched <= r.usage.attempts + if r.ending.Raised? then 1 else 0
    ensures !r.ending.Raised? ==> Answered(r.messages)
  {
    var budget := new Budget(bounds);
    var client := new Client();
    var messages, steps := [System, User], [];
    var k := 0;
    assert Onward(bounds, turns, lastWord, k, steps, budget.Spent(), client.calls);
    hide Onward, LoopEnds, Within, Most, Attempts, Answered;
    while k < |turns|
      invariant k <= |turns| && fresh(budget) && fresh(client) && budget.bounds == bounds
      invariant Onward(bounds, turns, lastWord, k, steps, budget.Spent(), client.calls) && Answered(messages)
    {
      var ended;
      ended, steps, messages := TakeNext(budget, client, turns, k, lastWord, steps, messages);
      if ended.Some? { return ended.value; }
      k := k + 1;
    }
    r := Investigation(None, Ongoing, steps, messages, budget.Spent(), client.calls);
    OnwardToEnd(bounds, turns, lastWord, r);
  }

  /** Seventeen checks with the default budget, whatever the model does. */
  method InvestigateByDefault(turns: seq<Turn>, lastWord: Option<string>) returns (r: Investigation)
    ensures r.dispatched <= 17 && Within(DEFAULT, r.usage)
    ensures forall s | s in r.usage.signatures :: r.usage.signatures[s] <= 2
  {
    r := Investigate(DEFAULT, turns, lastWord);
  }
}
