/** Reviewed scripts and the arguments they accept (driver/diagnostics.py,
    driver/repairs.py). */
module Diagnostics {
  import opened Wrappers
  import Decimal
  import Templates

  /** A JSON value as Python holds it. `repr` is the text of anything else. */
  datatype Value = Number(n: int) | Flag(b: bool) | Text(s: string) | Other(repr: string)

  /** str(value) */
  function Str(v: Value): string {
    match v
    case Number(n) => Decimal.Str(n)
    case Flag(b) => if b then "True" else "False"
    case Text(s) => s
    case Other(repr) => repr
  }

  // ---------- validators ----------

  datatype Validator = BoundedInt(low: int, high: int) | WindowsName(maximum: nat) | HostName

  predicate IsAlnum(x: char) {
    'A' <= x <= 'Z' || 'a' <= x <= 'z' || '0' <= x <= '9'
  }

  predicate IsNameChar(x: char) {
    IsAlnum(x) || x == '_' || x == '.' || x == '-'
  }

  /** `$` also matches before one final line break, so a value may carry one. */
  function Body(s: string): string {
    if s != [] && s[|s| - 1] == '\n' then s[..|s| - 1] else s
  }

  predicate IsName(s: string, maximum: nat) {
    1 <= |Body(s)| <= maximum && forall k | 0 <= k < |Body(s)| :: IsNameChar(Body(s)[k])
  }

  predicate IsLabel(s: string) {
    && 1 <= |s| <= 63 && IsAlnum(s[0]) && IsAlnum(s[|s| - 1])
    && forall k | 0 <= k < |s| :: IsAlnum(s[k]) || s[k] == '-'
  }

  function LabelLength(s: string): (n: nat)
    ensures n <= |s| && (n < |s| ==> s[n] == '.')
  {
    if s == [] || s[0] == '.' then 0 else 1 + LabelLength(s[1..])
  }

  /** Labels separated by dots, with at most one dot after the last. */
  predicate IsDotted(s: string)
    decreases |s|
  {
    var n := LabelLength(s);
    IsLabel(s[..n]) && (n == |s| || n + 1 == |s| || IsDotted(s[n + 1..]))
  }

  predicate IsHost(s: string) {
    1 <= |Body(s)| <= 253 && IsDotted(Body(s))
  }

  predicate Accepts(v: Validator, value: Value) {
    match v
    case BoundedInt(low, high) => value.Number? && low <= value.n <= high
    case WindowsName(maximum) => value.Text? && IsName(value.s, maximum)
    case HostName => value.Text? && IsHost(value.s)
  }

  lemma {:induction false} DottedCharacters(s: string, k: nat)
    requires IsDotted(s) && k < |s|
    ensures IsNameChar(s[k])
    decreases |s|
  {
    var n := LabelLength(s);
    if k < n {
      assert s[..n][k] == s[k];
    } else if k > n {
      assert s[n + 1..][k - n - 1] == s[k];
      DottedCharacters(s[n + 1..], k - n - 1);
    }
  }

  predicate IsPlainName(s: string, maximum: nat) {
    1 <= |s| <= maximum && forall k | 0 <= k < |s| :: IsNameChar(s[k])
  }

  /** What windows_name accepts: a name, or a name and one line break. */
  lemma NamesExactly(maximum: nat, s: string)
    ensures Accepts(WindowsName(maximum), Text(s)) <==>
              IsPlainName(s, maximum) || (s != [] && s[|s| - 1] == '\n' && IsPlainName(s[..|s| - 1], maximum))
  {
    if IsPlainName(s, maximum) { assert IsNameChar(s[|s| - 1]); }
  }

  /** What reaches a script: name characters, a minus sign included, and at most
      one line break, at the very end. No quote, space, brace or separator. */
  lemma AcceptedCharacters(v: Validator, value: Value, k: nat)
    requires Accepts(v, value) && k < |Str(value)|
    ensures IsNameChar(Str(value)[k]) || (Str(value)[k] == '\n' && k == |Str(value)| - 1)
  {
    var s := Str(value);
    if v.HostName? && k < |Body(s)| { DottedCharacters(Body(s), k); }
    assert k < |Body(s)| ==> Body(s)[k] == s[k];
  }

  /** Two values the same validator accepts print alike only if they are the same. */
  lemma AcceptedStrInjective(v: Validator, a: Value, b: Value)
    requires Accepts(v, a) && Accepts(v, b) && Str(a) == Str(b)
    ensures a == b
  {
    if v.BoundedInt? { Decimal.StrInjective(a.n, b.n); }
  }

  /** What bounded_int accepts: whole numbers in its range, and no truth value. */
  lemma NumbersExactly(low: int, high: int, value: Value)
    ensures Accepts(BoundedInt(low, high), value) <==> exists n :: value == Number(n) && low <= n <= high
  {
    if Accepts(BoundedInt(low, high), value) { assert value == Number(value.n); }
  }

  /** Labels put together with dots. */
  function Dotted(labels: seq<string>): string {
    if labels == [] then "" else if |labels| == 1 then labels[0] else labels[0] + "." + Dotted(labels[1..])
  }

  /** One or more labels with dots between them, and possibly one after. */
  ghost predicate IsHostOf(labels: seq<string>, s: string) {
    && labels != [] && (forall k | 0 <= k < |labels| :: IsLabel(labels[k]))
    && (s == Dotted(labels) || s == Dotted(labels) + ".")
  }

  lemma {:induction false} LabelLengthIs(s: string, n: nat)
    requires n <= |s| && (n < |s| ==> s[n] == '.') && forall k | 0 <= k < n :: s[k] != '.'
    ensures LabelLength(s) == n
  {
    if n > 0 { LabelLengthIs(s[1..], n - 1); }
  }

  /** A label at the front, and a dot or nothing after it. */
  lemma LabelThen(word: string, rest: string)
    requires IsLabel(word) && (rest == "" || rest[0] == '.')
    ensures LabelLength(word + rest) == |word| && (word + rest)[..|word|] == word
    ensures rest != "" ==> (word + rest)[|word| + 1..] == rest[1..]
  {
    assert forall k | 0 <= k < |word| :: (word + rest)[k] == word[k] != '.';
    LabelLengthIs(word + rest, |word|);
  }

  lemma {:induction false} LabelsAreDotted(labels: seq<string>, end: string)
    requires labels != [] && (forall k | 0 <= k < |labels| :: IsLabel(labels[k])) && (end == "" || end == ".")
    ensures IsDotted(Dotted(labels) + end)
    decreases |labels|
  {
    var first := labels[0];
    if |labels| == 1 {
      assert Dotted(labels) == first;
      LabelAlone(first, end);
    } else {
      hide IsLabel, IsDotted, Dotted;
      LabelsAreDotted(labels[1..], end);
      LabelInFront(first, Dotted(labels[1..]) + end);
      DottedNext(labels);
      Regrouped(first, Dotted(labels[1..]), end);
    }
  }

  lemma Regrouped(a: string, b: string, end: string)
    ensures (a + "." + b) + end == a + ("." + (b + end))
  {
  }

  lemma DottedNext(labels: seq<string>)
    requires |labels| > 1
    ensures Dotted(labels) == labels[0] + "." + Dotted(labels[1..])
  {
  }

  lemma LabelAlone(first: string, end: string)
    requires IsLabel(first) && (end == "" || end == ".")
    ensures IsDotted(first + end)
  {
    LabelThen(first, end);
  }

  lemma LabelInFront(first: string, tail: string)
    requires IsLabel(first) && IsDotted(tail)
    ensures IsDotted(first + ("." + tail))
  {
    LabelThen(first, "." + tail);
    hide IsLabel, LabelLength;
    assert ("." + tail)[1..] == tail;
  }

  lemma {:induction false} DottedHasLabels(s: string) returns (labels: seq<string>)
    requires IsDotted(s)
    ensures IsHostOf(labels, s)
    decreases |s|
  {
    var n := LabelLength(s);
    var first := s[..n];
    if n == |s| {
      labels := [first];
      assert s == first;
    } else if n + 1 == |s| {
      labels := [first];
      assert s == first + ".";
    } else {
      var others := DottedHasLabels(s[n + 1..]);
      labels := [first] + others;
      assert s == first + "." + s[n + 1..];
      hide IsLabel, IsDotted, IsHostOf;
      HostInFront(first, others, s[n + 1..]);
    }
  }

  lemma HostInFront(first: string, others: seq<string>, rest: string)
    requires IsLabel(first) && IsHostOf(others, rest)
    ensures IsHostOf([first] + others, first + "." + rest)
  {
    var labels := [first] + others;
    assert labels[1..] == others;
    hide IsLabel;
    DottedNext(labels);
    if rest != Dotted(others) { Joined(first + ".", Dotted(others)); }
    assert forall k | 0 <= k < |labels| :: IsLabel(labels[k]) by {
      assert forall k | 0 < k < |labels| :: labels[k] == others[k - 1];
    }
  }

  lemma Joined(a: string, b: string)
    ensures a + (b + ".") == (a + b) + "."
  {
  }

  lemma DottedExactly(s: string)
    ensures IsDotted(s) <==> exists labels :: IsHostOf(labels, s)
  {
    if IsDotted(s) {
      var labels := DottedHasLabels(s);
    }
    if labels :| IsHostOf(labels, s) {
      LabelsAreDotted(labels, if s == Dotted(labels) then "" else ".");
      assert Dotted(labels) + "" == Dotted(labels);
    }
  }

  /** What host_name accepts: up to 253 characters of labels and dots, with an optional
      final dot and an optional line break after it. */
  lemma HostsExactly(s: string)
    ensures Accepts(HostName, Text(s)) <==> 1 <= |Body(s)| <= 253 && exists labels :: IsHostOf(labels, Body(s))
  {
    DottedExactly(Body(s));
  }

  // ---------- building ----------

  datatype Parameter = Parameter(name: string, validator: Validator)

  datatype Diagnostic = Diagnostic(name: string, template: string, parameters: seq<Parameter>)

  type Arguments = map<string, Value>

  datatype BuildError =
    | UnknownArguments
    | MissingArguments
    | Invalid(name: string)
    | Unformattable(error: Templates.Error)

  function Names(parameters: seq<Parameter>): set<string> {
    set p | p in parameters :: p.name
  }

  function Rendered(arguments: Arguments): Templates.Values {
    map name | name in arguments :: Str(arguments[name])
  }

  function FirstInvalid(parameters: seq<Parameter>, arguments: Arguments): Option<string>
    requires Names(parameters) <= arguments.Keys
  {
    if parameters == [] then None
    else
      assert parameters[0].name in Names(parameters);
      assert Names(parameters[1..]) <= Names(parameters);
      if !Accepts(parameters[0].validator, arguments[parameters[0].name]) then Some(parameters[0].name)
      else FirstInvalid(parameters[1..], arguments)
  }

  function Built(c: Templates.Classes, d: Diagnostic, arguments: Arguments): Result<string, BuildError> {
    var names := Names(d.parameters);
    if !(arguments.Keys <= names) then Failure(UnknownArguments)
    else if !(names <= arguments.Keys) then Failure(MissingArguments)
    else if FirstInvalid(d.parameters, arguments).Some? then
      Failure(Invalid(FirstInvalid(d.parameters, arguments).value))
    else
      match Templates.Format(c, d.template, Rendered(arguments))
      case Success(text) => Success(text)
      case Failure(error) => Failure(Unformattable(error))
  }

  method Build(c: Templates.Classes, d: Diagnostic, arguments: Arguments) returns (r: Result<string, BuildError>)
    ensures r == Built(c, d, arguments)
  {
    var names := Names(d.parameters);
    if !(arguments.Keys <= names) { return Failure(UnknownArguments); }
    if !(names <= arguments.Keys) { return Failure(MissingArguments); }
    var validated := Validate(d.parameters, arguments);
    if validated.Failure? { return Failure(Invalid(validated.error)); }
    match Templates.Format(c, d.template, validated.value)
    case Success(text) => return Success(text);
    case Failure(error) => return Failure(Unformattable(error));
  }

  /** The loop over the declared parameters: the first that is refused, or all as text. */
  method Validate(parameters: seq<Parameter>, arguments: Arguments) returns (r: Result<Templates.Values, string>)
    requires Names(parameters) == arguments.Keys
    ensures match r
            case Success(validated) => FirstInvalid(parameters, arguments).None? && validated == Rendered(arguments)
            case Failure(name) => FirstInvalid(parameters, arguments) == Some(name)
  {
    hide Accepts, Str;
    var validated: Templates.Values := map[];
    var k := 0;
    while k < |parameters|
      invariant k <= |parameters|
      invariant Names(parameters[k..]) <= arguments.Keys
      invariant FirstInvalid(parameters, arguments) == FirstInvalid(parameters[k..], arguments)
      invariant validated.Keys == Names(parameters[..k])
      invariant forall name | name in validated :: name in arguments && validated[name] == Str(arguments[name])
    {
      var p := parameters[k];
      FirstInvalidStep(parameters, k, arguments);
      if !Accepts(p.validator, arguments[p.name]) { return Failure(p.name); }
      validated := validated[p.name := Str(arguments[p.name])];
      NamesSnoc(parameters, k);
      k := k + 1;
    }
    assert parameters[..k] == parameters;
    return Success(validated);
  }

  lemma FirstInvalidStep(parameters: seq<Parameter>, k: nat, arguments: Arguments)
    requires k < |parameters| && Names(parameters[k..]) <= arguments.Keys
    ensures parameters[k].name in arguments && Names(parameters[k + 1..]) <= arguments.Keys
    ensures FirstInvalid(parameters[k..], arguments) ==
            if !Accepts(parameters[k].validator, arguments[parameters[k].name]) then Some(parameters[k].name)
            else FirstInvalid(parameters[k + 1..], arguments)
  {
    hide Accepts;
    assert parameters[k..][0] == parameters[k] && parameters[k..][1..] == parameters[k + 1..];
    assert parameters[k..][0].name in Names(parameters[k..]);
    assert forall p | p in parameters[k + 1..] :: p in parameters[k..];
  }

  lemma NamesSnoc(parameters: seq<Parameter>, k: nat)
    requires k < |parameters|
    ensures Names(parameters[..k + 1]) == Names(parameters[..k]) + {parameters[k].name}
    ensures Names(parameters[k + 1..]) <= Names(parameters)
  {
    assert parameters[..k + 1] == parameters[..k] + [parameters[k]];
  }

  predicate Fits(d: Diagnostic, arguments: Arguments) {
    && arguments.Keys == Names(d.parameters)
    && forall k | 0 <= k < |d.parameters| && d.parameters[k].name in arguments ::
         Accepts(d.parameters[k].validator, arguments[d.parameters[k].name])
  }

  lemma {:induction false} NoneInvalid(parameters: seq<Parameter>, arguments: Arguments)
    requires Names(parameters) <= arguments.Keys
    ensures FirstInvalid(parameters, arguments).None? <==>
            forall k | 0 <= k < |parameters| :: parameters[k].name in arguments
              && Accepts(parameters[k].validator, arguments[parameters[k].name])
  {
    assert forall k | 0 <= k < |parameters| :: parameters[k].name in Names(parameters);
    if parameters != [] {
      assert Names(parameters[1..]) <= Names(parameters);
      NoneInvalid(parameters[1..], arguments);
      assert forall k | 1 <= k < |parameters| :: parameters[1..][k - 1] == parameters[k];
    }
  }

  ghost predicate Undeclared(d: Diagnostic, arguments: Arguments) {
    exists name :: name in arguments && name !in Names(d.parameters)
  }

  ghost predicate Lacking(d: Diagnostic, arguments: Arguments) {
    exists name :: name in Names(d.parameters) && name !in arguments
  }

  /** Why building fails before anything is formatted: a name that is not declared, one
      that is missing, or the first declared one whose value is refused. */
  lemma RefusedExactly(c: Templates.Classes, d: Diagnostic, arguments: Arguments, name: string)
    ensures Built(c, d, arguments) == Failure(UnknownArguments) <==> Undeclared(d, arguments)
    ensures Built(c, d, arguments) == Failure(MissingArguments)
            <==> !Undeclared(d, arguments) && Lacking(d, arguments)
    ensures Built(c, d, arguments) == Failure(Invalid(name))
            <==> && !Undeclared(d, arguments) && !Lacking(d, arguments)
                 && exists k: nat :: IsFirstRefused(d.parameters, arguments, k, name)
  {
    DeclaredExactly(d, arguments);
    hide Undeclared, Lacking, IsFirstRefused, Rendered, Templates.Format;
    if arguments.Keys == Names(d.parameters) {
      FirstRefused(d.parameters, arguments, name);
      hide Names, FirstInvalid;
    } else {
      hide Names, FirstInvalid;
    }
  }

  lemma DeclaredExactly(d: Diagnostic, arguments: Arguments)
    ensures arguments.Keys <= Names(d.parameters) <==> !Undeclared(d, arguments)
    ensures Names(d.parameters) <= arguments.Keys <==> !Lacking(d, arguments)
  {
    hide Names;
  }

  ghost predicate IsFirstRefused(parameters: seq<Parameter>, arguments: Arguments, k: nat, name: string) {
    && k < |parameters| && parameters[k].name == name && name in arguments
    && !Accepts(parameters[k].validator, arguments[name])
    && forall j | 0 <= j < k ::
         parameters[j].name in arguments && Accepts(parameters[j].validator, arguments[parameters[j].name])
  }

  lemma {:induction false} FirstRefused(parameters: seq<Parameter>, arguments: Arguments, name: string)
    requires Names(parameters) <= arguments.Keys
    ensures FirstInvalid(parameters, arguments) == Some(name)
            <==> exists k: nat :: IsFirstRefused(parameters, arguments, k, name)
  {
    hide Accepts;
    if parameters != [] {
      var p, rest := parameters[0], parameters[1..];
      assert p.name in Names(parameters) && Names(rest) <= Names(parameters);
      FirstRefused(rest, arguments, name);
      if !Accepts(p.validator, arguments[p.name]) {
        if p.name == name { assert IsFirstRefused(parameters, arguments, 0, name); }
      } else {
        if k: nat :| IsFirstRefused(rest, arguments, k, name) {
          assert forall j | 0 < j <= k :: parameters[j] == rest[j - 1];
          assert IsFirstRefused(parameters, arguments, k + 1, name);
        }
        if k: nat :| IsFirstRefused(parameters, arguments, k, name) {
          assert k > 0;
          assert forall j | 0 <= j < k - 1 :: rest[j] == parameters[j + 1];
          assert IsFirstRefused(rest, arguments, k - 1, name);
        }
      }
    }
  }

  /** A compiled script is built exactly when the arguments are the declared ones,
      every one is accepted and every marker is a parameter; the text is then the
      script with its markers replaced, all at once. */
  lemma BuiltExactly(c: Templates.Classes, d: Diagnostic, script: string, arguments: Arguments)
    requires Templates.Sane(c) && d.template == Templates.Ps(c, script)
    ensures Built(c, d, arguments).Success? <==>
              && Fits(d, arguments)
              && forall name | name in Templates.Marked(c, script) ::
                   name in Names(d.parameters) && !Templates.IsPosition(c, name)
    ensures Built(c, d, arguments).Success? ==>
              Success(Built(c, d, arguments).value) == Templates.Substituted(c, script, Rendered(arguments))
  {
    if Names(d.parameters) == arguments.Keys {
      NoneInvalid(d.parameters, arguments);
      assert forall k | 0 <= k < |d.parameters| :: d.parameters[k].name in Names(d.parameters);
    }
    Templates.FormatOfPs(c, script, Rendered(arguments));
    Templates.SucceedsExactly(c, script, Rendered(arguments));
  }
}
