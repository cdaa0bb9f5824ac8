/** Integers as decimal text: str(int), and int.ToString() up to the culture's
    minus sign. */
module Decimal {

  function Digit(d: int): char
    requires 0 <= d < 10
  {
    ('0' as int + d) as char
  }

  function Digits(n: nat): (s: string)
    ensures s != [] && forall k | 0 <= k < |s| :: '0' <= s[k] <= '9'
  {
    (if n < 10 then [] else Digits(n / 10)) + [Digit(n % 10)]
  }

  /** `minus` is what the writer puts in front of a negative number. */
  function Rendered(n: int, minus: string): string {
    if n < 0 then minus + Digits(-n) else Digits(n)
  }

  function Str(n: int): string {
    Rendered(n, "-")
  }

  lemma DigitsSplit(n: nat)
    ensures var s := Digits(n);
            && s[|s| - 1] == Digit(n % 10) && (n < 10 ==> |s| == 1)
            && (n >= 10 ==> |s| > 1 && s[..|s| - 1] == Digits(n / 10))
  {
    if n >= 10 { assert Digits(n)[..|Digits(n)| - 1] == Digits(n / 10); }
  }

  lemma {:induction false} DigitsInjective(m: nat, n: nat)
    requires Digits(m) == Digits(n)
    ensures m == n
  {
    DigitsSplit(m);
    DigitsSplit(n);
    if m >= 10 { DigitsInjective(m / 10, n / 10); }
  }

  lemma StrStarts(n: int)
    ensures Str(n) != [] && (Str(n)[0] == '-' <==> n < 0) && (n >= 0 ==> '0' <= Str(n)[0] <= '9')
  {
  }

  lemma StrInjective(m: int, n: int)
    requires Str(m) == Str(n)
    ensures m == n
  {
    StrStarts(m);
    StrStarts(n);
    if m < 0 {
      assert Str(m)[1..] == Digits(-m) && Str(n)[1..] == Digits(-n);
      DigitsInjective(-m, -n);
    } else {
      DigitsInjective(m, n);
    }
  }
}

/** The string a device signs over its result (server/protocol.py,
    src/SquashRmm.Protocol/Job.cs). Digests are parameters: all that matters
    here is that hex contains no separator. */
module Attestation {
  import opened Wrappers
  import opened Decimal
  import opened Joins
  import Unicode

  const SEPARATOR := '|'

  datatype Execution = Execution(jobId: string, scriptSha256: string, exitCode: Option<int>, durationMs: int,
                                 stdoutSha256: string, stderrSha256: string)

  /** Digests are hex. The job id may be anything. */
  predicate HexDigests(e: Execution) {
    Plain(SEPARATOR, e.scriptSha256) && Plain(SEPARATOR, e.stdoutSha256) && Plain(SEPARATOR, e.stderrSha256)
  }

  function ExitField(exitCode: Option<int>, minus: string): string {
    if exitCode.None? then "null" else Rendered(exitCode.value, minus)
  }

  function Fields(e: Execution, minus: string): seq<string> {
    ["squash-rmm-result-v1", e.jobId, e.scriptSha256, ExitField(e.exitCode, minus),
     Rendered(e.durationMs, minus), e.stdoutSha256, e.stderrSha256]
  }

  /** result_attestation, before encoding. */
  function ServerText(e: Execution): string {
    Join(SEPARATOR, Fields(e, "-"))
  }

  /** JobResult.Attestation: ToString() takes its minus sign from the current culture. */
  function AgentText(e: Execution, minus: string): string {
    Join(SEPARATOR, Fields(e, minus))
  }

  function Codes(text: string): seq<Unicode.Scalar> {
    seq(|text|, k requires 0 <= k < |text| => text[k] as int as Unicode.Scalar)
  }

  function Utf8(text: string): seq<Unicode.Byte> {
    Unicode.Encode(Codes(text))
  }

  // ---------- the separator ----------

  /** Two joins with separator-free fields after the first two agree only field by field. */
  lemma {:induction false} FieldsInjective(fields: seq<string>, others: seq<string>)
    requires |fields| == |others| >= 2 && fields[0] == others[0]
    requires forall k | 2 <= k < |fields| :: Plain(SEPARATOR, fields[k]) && Plain(SEPARATOR, others[k])
    requires Join(SEPARATOR, fields) == Join(SEPARATOR, others)
    ensures fields == others
  {
    var n := |fields| - 1;
    var first, second := Join(SEPARATOR, fields), Join(SEPARATOR, others);
    assert fields == fields[..n] + [fields[n]] && others == others[..n] + [others[n]];
    JoinSnoc(SEPARATOR, fields[..n], fields[n]);
    JoinSnoc(SEPARATOR, others[..n], others[n]);
    if n == 1 {
      assert first[|fields[0]| + 1..] == fields[1] && second[|fields[0]| + 1..] == others[1];
    } else {
      LastField(SEPARATOR, Join(SEPARATOR, fields[..n]), fields[n], Join(SEPARATOR, others[..n]), others[n]);
      FieldsInjective(fields[..n], others[..n]);
    }
  }

  lemma ExitFieldInjective(a: Option<int>, b: Option<int>)
    requires ExitField(a, "-") == ExitField(b, "-")
    ensures a == b
  {
    if a.Some? { StrStarts(a.value); }
    if b.Some? { StrStarts(b.value); }
    if a.Some? && b.Some? { StrInjective(a.value, b.value); }
  }

  lemma RenderedPlain(n: int)
    ensures Plain(SEPARATOR, Str(n))
  {
  }

  /** What is signed, field by field. */
  lemma SignedText(e: Execution)
    ensures ServerText(e)
            == "squash-rmm-result-v1" + "|" + (e.jobId + "|" + (e.scriptSha256 + "|" +
               ((if e.exitCode.None? then "null" else Str(e.exitCode.value)) + "|" +
                (Str(e.durationMs) + "|" + (e.stdoutSha256 + "|" + e.stderrSha256)))))
  {
    var x := Fields(e, "-");
    var x1, x2, x3, x4, x5, x6 := x[1..], x[2..], x[3..], x[4..], x[5..], x[6..];
    assert x1[1..] == x2 && x2[1..] == x3 && x3[1..] == x4 && x4[1..] == x5 && x5[1..] == x6;
    assert Join(SEPARATOR, x6) == x[6] && Join(SEPARATOR, x5) == x[5] + "|" + x[6];
    assert Join(SEPARATOR, x4) == x[4] + "|" + Join(SEPARATOR, x5);
    assert Join(SEPARATOR, x3) == x[3] + "|" + Join(SEPARATOR, x4);
    assert Join(SEPARATOR, x2) == x[2] + "|" + Join(SEPARATOR, x3);
    assert Join(SEPARATOR, x1) == x[1] + "|" + Join(SEPARATOR, x2);
  }

  // ---------- what the signature covers ----------

  /** Different executions never sign the same bytes, even when a job id
      contains the separator. */
  lemma AttestationInjective(e: Execution, f: Execution)
    requires HexDigests(e) && HexDigests(f) && Utf8(ServerText(e)) == Utf8(ServerText(f))
    ensures e == f
  {
    Utf8Injective(ServerText(e), ServerText(f));
    RenderedPlain(e.durationMs);
    RenderedPlain(f.durationMs);
    if e.exitCode.Some? { RenderedPlain(e.exitCode.value); }
    if f.exitCode.Some? { RenderedPlain(f.exitCode.value); }
    var x, y := Fields(e, "-"), Fields(f, "-");
    FieldsInjective(x, y);
    assert x[1] == y[1] && x[2] == y[2] && x[3] == y[3] && x[4] == y[4] && x[5] == y[5] && x[6] == y[6];
    ExitFieldInjective(e.exitCode, f.exitCode);
    StrInjective(e.durationMs, f.durationMs);
  }

  lemma Utf8Injective(a: string, b: string)
    requires Utf8(a) == Utf8(b)
    ensures a == b
  {
    Unicode.DecodeEncoded(Codes(a), []);
    Unicode.DecodeEncoded(Codes(b), []);
    assert Codes(a) + Unicode.DecodeIgnore([]) == Codes(a) && Codes(b) + Unicode.DecodeIgnore([]) == Codes(b);
    assert Codes(a) == Codes(b);
    assert |a| == |Codes(a)| == |b|;
    assert forall k | 0 <= k < |a| :: a[k] as int == Codes(a)[k] == Codes(b)[k] == b[k] as int;
  }

  /** The two sides sign the same bytes exactly when the agent writes no foreign
      minus sign: a culture whose sign is not "-" breaks negative exit codes. */
  lemma SidesCoincide(e: Execution, minus: string)
    requires e.durationMs >= 0
    ensures Utf8(AgentText(e, minus)) == Utf8(ServerText(e))
            <==> e.exitCode.None? || e.exitCode.value >= 0 || minus == "-"
  {
    if Utf8(AgentText(e, minus)) == Utf8(ServerText(e)) && e.exitCode.Some? && e.exitCode.value < 0 {
      Utf8Injective(AgentText(e, minus), ServerText(e));
      SameMinus(e, minus);
    }
  }

  lemma SameMinus(e: Execution, minus: string)
    requires e.exitCode.Some? && e.exitCode.value < 0 && e.durationMs >= 0
    requires AgentText(e, minus) == ServerText(e)
    ensures minus == "-"
  {
    var x, y := Fields(e, minus), Fields(e, "-");
    JoinAround(x, 3);
    JoinAround(y, 3);
    assert x[..3] == y[..3] && x[4..] == y[4..];
    var digits := Digits(-e.exitCode.value);
    assert x[3] == minus + digits && y[3] == "-" + digits;
    SameSign(Join(SEPARATOR, x[..3]) + [SEPARATOR], minus, digits, [SEPARATOR] + Join(SEPARATOR, x[4..]));
  }

  /** One field, with what is before and after it. */
  lemma JoinAround(fields: seq<string>, k: nat)
    requires 0 < k < |fields| - 1
    ensures Join(SEPARATOR, fields)
            == (Join(SEPARATOR, fields[..k]) + [SEPARATOR]) + fields[k]
               + ([SEPARATOR] + Join(SEPARATOR, fields[k + 1..]))
  {
    JoinSplits(SEPARATOR, fields, k);
    JoinSplits(SEPARATOR, fields[k..], 1);
    assert fields[k..][..1] == [fields[k]] && fields[k..][1..] == fields[k + 1..];
  }

  lemma SameSign(before: string, minus: string, digits: string, after: string)
    requires before + (minus + digits) + after == before + ("-" + digits) + after
    ensures minus == "-"
  {
    var text := before + (minus + digits) + after;
    assert |minus| == 1;
    assert minus[0] == text[|before|];
    assert text[|before|] == (before + ("-" + digits) + after)[|before|] == '-';
  }
}
