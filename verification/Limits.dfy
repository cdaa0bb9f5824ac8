/** The bounds on one investigation (driver/limits.py). */
module Limits {
  import opened Wrappers
  import Decimal
  import opened Signatures
  import Diagnostics

  datatype Bounds = Bounds(maxDiagnostics: int, maxWallClockSeconds: real, maxTotalOutputBytes: int,
                           maxRepeatsPerDiagnostic: int, maxAttempts: int, maxFailedAttempts: int)

  const DEFAULT := Bounds(12, 300.0, 512_000, 2, 20, 6)

  datatype Usage = Usage(diagnosticsRun: int, attempts: int, failedAttempts: int, outputBytes: int,
                         signatures: map<string, int>)

  const UNUSED := Usage(0, 0, 0, 0, map[])

  datatype Exceeded = Diagnostics | Attempts | Failures | WallClock | Output | Repeats

  function Count(u: Usage, signature: string): int {
    if signature in u.signatures then u.signatures[signature] else 0
  }

  /** What Budget.check raises, in the order it looks. */
  function Refusal(b: Bounds, u: Usage, diagnostic: string, items: Items, elapsed: real): Option<Exceeded> {
    if u.diagnosticsRun >= b.maxDiagnostics then Some(Diagnostics)
    else if u.attempts >= b.maxAttempts then Some(Attempts)
    else if u.failedAttempts >= b.maxFailedAttempts then Some(Failures)
    else if elapsed >= b.maxWallClockSeconds then Some(WallClock)
    else if u.outputBytes >= b.maxTotalOutputBytes then Some(Output)
    else if Count(u, Signature(diagnostic, items)) >= b.maxRepeatsPerDiagnostic then Some(Repeats)
    else None
  }

  function Recorded(u: Usage, diagnostic: string, items: Items, succeeded: bool, outputBytes: int): Usage {
    var signature := Signature(diagnostic, items);
    Usage(if succeeded then u.diagnosticsRun + 1 else u.diagnosticsRun, u.attempts + 1,
          if succeeded then u.failedAttempts else u.failedAttempts + 1,
          if succeeded && outputBytes > 0 then u.outputBytes + outputBytes else u.outputBytes,
          u.signatures[signature := Count(u, signature) + 1])
  }

  class Budget {
    const bounds: Bounds
    var diagnosticsRun: int
    var attempts: int
    var failedAttempts: int
    var outputBytes: int
    var signatures: map<string, int>

    function Spent(): Usage
      reads this
    {
      Usage(diagnosticsRun, attempts, failedAttempts, outputBytes, signatures)
    }

    constructor (bounds: Bounds)
      ensures this.bounds == bounds && Spent() == UNUSED
    {
      this.bounds := bounds;
      diagnosticsRun, attempts, failedAttempts, outputBytes, signatures := 0, 0, 0, 0, map[];
    }

    method Check(diagnostic: string, items: Items, elapsed: real) returns (exceeded: Option<Exceeded>)
      ensures exceeded == Refusal(bounds, Spent(), diagnostic, items, elapsed)
    {
      if diagnosticsRun >= bounds.maxDiagnostics { return Some(Diagnostics); }
      if attempts >= bounds.maxAttempts { return Some(Attempts); }
      if failedAttempts >= bounds.maxFailedAttempts { return Some(Failures); }
      if elapsed >= bounds.maxWallClockSeconds { return Some(WallClock); }
      if outputBytes >= bounds.maxTotalOutputBytes { return Some(Output); }
      var signature := Signature(diagnostic, items);
      var count := if signature in signatures then signatures[signature] else 0;
      if count >= bounds.maxRepeatsPerDiagnostic { return Some(Repeats); }
      return None;
    }

    method RecordAttempt(diagnostic: string, items: Items, succeeded: bool, size: int)
      modifies this
      ensures Spent() == Recorded(old(Spent()), diagnostic, items, succeeded, size)
    {
      attempts := attempts + 1;
      var signature := Signature(diagnostic, items);
      signatures := signatures[signature := (if signature in signatures then signatures[signature] else 0) + 1];
      if succeeded {
        diagnosticsRun := diagnosticsRun + 1;
        outputBytes := outputBytes + if size > 0 then size else 0;
      } else {
        failedAttempts := failedAttempts + 1;
      }
    }
  }

  // ---------- what the counters mean ----------

  ghost function Total(counts: map<string, int>): int
    decreases |counts|
  {
    if counts == map[] then 0
    else
      var k :| k in counts;
      counts[k] + Total(counts - {k})
  }

  lemma {:induction false} TotalWithout(counts: map<string, int>, k: string)
    requires k in counts
    ensures Total(counts) == counts[k] + Total(counts - {k})
    decreases |counts|
  {
    var j :| j in counts && Total(counts) == counts[j] + Total(counts - {j});
    if j != k {
      TotalWithout(counts - {j}, k);
      TotalWithout(counts - {k}, j);
      assert counts - {j} - {k} == counts - {k} - {j};
    }
  }

  lemma TotalAdds(counts: map<string, int>, k: string, more: int)
    ensures Total(counts[k := (if k in counts then counts[k] else 0) + more]) == Total(counts) + more
  {
    var grown := counts[k := (if k in counts then counts[k] else 0) + more];
    TotalWithout(grown, k);
    assert grown - {k} == counts - {k};
    if k in counts { TotalWithout(counts, k); } else { assert counts - {k} == counts; }
  }

  /** The most attempts, and so dispatches, an investigation can make. */
  function Most(b: Bounds): nat {
    var byKind := b.maxDiagnostics + b.maxFailedAttempts - 1;
    var least := if b.maxAttempts < byKind then b.maxAttempts else byKind;
    if least < 0 then 0 else least
  }

  /** Attempts are successes and failures, and are the repeats of every check
      together; no check is repeated beyond its limit. */
  ghost predicate Within(b: Bounds, u: Usage) {
    && u.attempts == u.diagnosticsRun + u.failedAttempts == Total(u.signatures)
    && u.diagnosticsRun >= 0 && u.failedAttempts >= 0
    && u.attempts <= Most(b)
    && (forall s | s in u.signatures :: 0 < u.signatures[s] <= b.maxRepeatsPerDiagnostic)
  }

  /** An attempt the budget allowed leaves it within its bounds. */
  lemma RecordKeepsWithin(b: Bounds, u: Usage, diagnostic: string, items: Items, elapsed: real, succeeded: bool,
                          size: int)
    requires Within(b, u) && Refusal(b, u, diagnostic, items, elapsed).None?
    ensures Within(b, Recorded(u, diagnostic, items, succeeded, size)) && u.attempts < Most(b)
  {
    TotalAdds(u.signatures, Signature(diagnostic, items), 1);
  }

  /** So a check that never ran can use up another's repeats: twice refused as text, the
      number is refused as repeated too. */
  lemma RefusedChecksUseUpRepeats(d: Diagnostics.Diagnostic, p: Diagnostics.Parameter, n: int)
    requires WellNamed(d) && p in d.parameters && p.validator.BoundedInt? && p.validator.low <= n <= p.validator.high
    ensures var number: Items := [(p.name, Diagnostics.Number(n))];
            var text: Items := [(p.name, Diagnostics.Text(Decimal.Str(n)))];
            var once := Recorded(UNUSED, d.name, text, false, 0);
            var twice := Recorded(once, d.name, text, false, 0);
            && Passes(d, number) && !Passes(d, text)
            && Refusal(DEFAULT, UNUSED, d.name, number, 0.0) == None
            && Refusal(DEFAULT, twice, d.name, number, 0.0) == Some(Repeats) && twice.diagnosticsRun == 0
  {
    UnvalidatedSignaturesCollide(d, p, n);
  }

  /** Which bound refuses a check: the first that is reached, in this order. */
  lemma RefusedExactly(b: Bounds, u: Usage, diagnostic: string, items: Items, elapsed: real)
    ensures var repeats := if Signature(diagnostic, items) in u.signatures
                           then u.signatures[Signature(diagnostic, items)] else 0;
            var ran, tried, failed := u.diagnosticsRun >= b.maxDiagnostics, u.attempts >= b.maxAttempts,
                                      u.failedAttempts >= b.maxFailedAttempts;
            var late, full, repeated := elapsed >= b.maxWallClockSeconds, u.outputBytes >= b.maxTotalOutputBytes,
                                        repeats >= b.maxRepeatsPerDiagnostic;
            var refusal := Refusal(b, u, diagnostic, items, elapsed);
            && (refusal == Some(Exceeded.Diagnostics) <==> ran)
            && (refusal == Some(Attempts) <==> !ran && tried)
            && (refusal == Some(Failures) <==> !ran && !tried && failed)
            && (refusal == Some(WallClock) <==> !ran && !tried && !failed && late)
            && (refusal == Some(Output) <==> !ran && !tried && !failed && !late && full)
            && (refusal == Some(Repeats) <==> !ran && !tried && !failed && !late && !full && repeated)
  {
  }

  /** What one attempt adds: itself, to its kind, its output if it succeeded and the count
      of its signature; nothing is ever taken away. */
  lemma RecordedExactly(u: Usage, diagnostic: string, items: Items, succeeded: bool, size: int)
    ensures var after, signature := Recorded(u, diagnostic, items, succeeded, size), Signature(diagnostic, items);
            && after.attempts == u.attempts + 1
            && after.diagnosticsRun - u.diagnosticsRun == (if succeeded then 1 else 0)
            && after.failedAttempts - u.failedAttempts == (if succeeded then 0 else 1)
            && after.outputBytes - u.outputBytes == (if succeeded && size >= 0 then size else 0)
            && after.signatures.Keys == u.signatures.Keys + {signature}
            && after.signatures[signature] == (if signature in u.signatures then u.signatures[signature] else 0) + 1
            && forall s | s in u.signatures && s != signature :: after.signatures[s] == u.signatures[s]
  {
  }

  // ---------- the bound is met ----------

  datatype Attempt = Attempt(diagnostic: string, items: Items, elapsed: real, succeeded: bool, size: int)

  /** The usage after attempts each of which the budget allowed, if it did. */
  function Spent(b: Bounds, u: Usage, attempts: seq<Attempt>): Option<Usage> {
    if attempts == [] then Some(u)
    else
      var before := Spent(b, u, attempts[..|attempts| - 1]);
      var last := attempts[|attempts| - 1];
      if before.None? || Refusal(b, before.value, last.diagnostic, last.items, last.elapsed).Some? then None
      else Some(Recorded(before.value, last.diagnostic, last.items, last.succeeded, last.size))
  }

  /** Failing until one failure short of the limit and succeeding from then on. */
  lemma {:induction false} MostIsReached(b: Bounds, n: nat) returns (attempts: seq<Attempt>)
    requires n <= Most(b) && b.maxDiagnostics > 0 && b.maxFailedAttempts > 0 && b.maxRepeatsPerDiagnostic > 0
    requires b.maxWallClockSeconds > 0.0 && b.maxTotalOutputBytes > 0
    ensures |attempts| == n
    ensures var u := Spent(b, UNUSED, attempts);
            && u.Some? && u.value.attempts == n && u.value.outputBytes == 0
            && u.value.failedAttempts == (if n < b.maxFailedAttempts then n else b.maxFailedAttempts - 1)
            && u.value.diagnosticsRun == n - u.value.failedAttempts
            && forall k | k >= n :: Signature(Decimal.Str(k), []) !in u.value.signatures
  {
    if n == 0 {
      attempts := [];
    } else {
      var earlier := MostIsReached(b, n - 1);
      var last := Attempt(Decimal.Str(n - 1), [], 0.0, n >= b.maxFailedAttempts, 0);
      attempts := earlier + [last];
      assert attempts[..|attempts| - 1] == earlier;
      forall k | k >= n ensures Signature(Decimal.Str(k), []) != Signature(Decimal.Str(n - 1), []) {
        DistinctNames(k, n - 1);
      }
    }
  }

  lemma DistinctNames(k: nat, n: nat)
    requires k != n
    ensures Signature(Decimal.Str(k), []) != Signature(Decimal.Str(n), [])
  {
    if Signature(Decimal.Str(k), []) == Signature(Decimal.Str(n), []) {
      SignatureReads(Decimal.Str(k), [], Decimal.Str(n), []);
      Decimal.StrInjective(k, n);
    }
  }
}
