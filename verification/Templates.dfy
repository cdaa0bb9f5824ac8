/** Scripts with parameters (driver/diagnostics.py): `_ps` compiles a PowerShell
    text to a template, and str.format fills it in. */
module Templates {
  import opened Wrappers

  /** What the pattern leaves to Python: \w, and the characters that make a
      replacement field a position rather than a name. */
  datatype Classes = Classes(word: char -> bool, digit: char -> Option<nat>)

  ghost predicate Sane(c: Classes) {
    !c.word('{') && !c.word('}') && !c.word('<') && !c.word('>')
  }

  datatype Error =
    | KeyError(name: string)         // no argument of that name
    | IndexError(name: string)       // all digits: a position, and there are no positional arguments
    | TooManyDigits                  // a ValueError: the digits in front exceed the largest index
    | ValueError                     // a brace that is not part of a field or a pair
    | Unsupported                    // attributes, indexes, conversions and format specs

  type Values = map<string, string>

  /** How many word characters are in front. */
  function Words(c: Classes, t: string): (n: nat)
    ensures n <= |t| && (n < |t| ==> !c.word(t[n])) && forall k | 0 <= k < n :: c.word(t[k])
  {
    if t == [] || !c.word(t[0]) then 0 else 1 + Words(c, t[1..])
  }

  /** The length of the name in a <<name>> that starts here. */
  function Marker(c: Classes, t: string): (n: nat)
    ensures n > 0 ==> n + 4 <= |t|
  {
    if "<<" <= t then
      var n := Words(c, t[2..]);
      if n > 0 && ">>" <= t[n + 2..] then n else 0
    else 0
  }

  // ---------- the compiler ----------

  /** str.replace of one character. */
  function Replace(t: string, x: char, with: string): string {
    if t == [] then [] else (if t[0] == x then with else [t[0]]) + Replace(t[1..], x, with)
  }

  function Escape(t: string): string {
    Replace(Replace(t, '{', "{{"), '}', "}}")
  }

  /** re.sub(r"<<(\w+)>>", r"{\1}", t) */
  function MarkersToFields(c: Classes, t: string): string {
    if t == [] then []
    else
      var n := Marker(c, t);
      if n > 0 then "{" + t[2..n + 2] + "}" + MarkersToFields(c, t[n + 4..])
      else [t[0]] + MarkersToFields(c, t[1..])
  }

  function Ps(c: Classes, script: string): string {
    MarkersToFields(c, Escape(script))
  }

  // ---------- str.format ----------

  /** The number a name begins with, if it begins with digits. */
  function Leading(c: Classes, name: string, before: nat): nat {
    if name == [] || c.digit(name[0]).None? then before
    else Leading(c, name[1..], 10 * before + c.digit(name[0]).value)
  }

  predicate AllDigits(c: Classes, name: string) {
    forall k | 0 <= k < |name| :: c.digit(name[k]).Some?
  }

  const PY_SSIZE_T_MAX := 0x7FFF_FFFF_FFFF_FFFF

  /** Not looked up: all digits, or more of them in front than an index can hold. */
  predicate IsPosition(c: Classes, name: string) {
    AllDigits(c, name) || Leading(c, name, 0) > PY_SSIZE_T_MAX
  }

  function Lookup(c: Classes, values: Values, name: string): Result<string, Error> {
    if Leading(c, name, 0) > PY_SSIZE_T_MAX then Failure(TooManyDigits)
    else if AllDigits(c, name) then Failure(IndexError(name))
    else if name in values then Success(values[name])
    else Failure(KeyError(name))
  }

  function Then(first: Result<string, Error>, rest: Result<string, Error>): Result<string, Error> {
    if first.Failure? then first else if rest.Failure? then rest else Success(first.value + rest.value)
  }

  function Format(c: Classes, t: string, values: Values): Result<string, Error>
    decreases |t|
  {
    if t == [] then Success([])
    else if t[0] == '{' then
      if |t| > 1 && t[1] == '{' then Then(Success("{"), Format(c, t[2..], values))
      else
        var n := Words(c, t[1..]);
        if n + 1 == |t| then Failure(ValueError)
        else if n > 0 && t[n + 1] == '}' then Then(Lookup(c, values, t[1..n + 1]), Format(c, t[n + 2..], values))
        else Failure(Unsupported)
    else if t[0] == '}' then
      if |t| > 1 && t[1] == '}' then Then(Success("}"), Format(c, t[2..], values)) else Failure(ValueError)
    else Then(Success([t[0]]), Format(c, t[1..], values))
  }

  // ---------- what compiling and formatting amount to ----------

  /** One simultaneous substitution of the markers: everything else, braces
      included, is copied, and no value is looked at again. */
  function Substituted(c: Classes, script: string, values: Values): Result<string, Error> {
    if script == [] then Success([])
    else
      var n := Marker(c, script);
      if n > 0 then Then(Lookup(c, values, script[2..n + 2]), Substituted(c, script[n + 4..], values))
      else Then(Success([script[0]]), Substituted(c, script[1..], values))
  }

  function Escaped(x: char): string {
    if x == '{' then "{{" else if x == '}' then "}}" else [x]
  }

  lemma ReplaceJoin(s: string, t: string, x: char, with: string)
    ensures Replace(s + t, x, with) == Replace(s, x, with) + Replace(t, x, with)
  {
    if s == [] {
      assert s + t == t;
    } else {
      assert (s + t)[1..] == s[1..] + t;
      ReplaceJoin(s[1..], t, x, with);
    }
  }

  /** Doubling one brace and then the other doubles each where it stands. */
  lemma EscapeStep(t: string)
    requires t != []
    ensures Escape(t) == Escaped(t[0]) + Escape(t[1..])
  {
    var first := if t[0] == '{' then "{{" else [t[0]];
    assert Replace(t, '{', "{{") == first + Replace(t[1..], '{', "{{");
    ReplaceJoin(first, Replace(t[1..], '{', "{{"), '}', "}}");
    assert Replace(first, '}', "}}") == Escaped(t[0]) by {
      if t[0] == '{' { assert "{{"[1..] == "{"; }
    }
  }

  predicate IsBrace(x: char) { x == '{' || x == '}' }

  lemma {:induction false} EscapeKeeps(t: string, n: nat)
    requires n <= |t| && forall k | 0 <= k < n :: !IsBrace(t[k])
    ensures Escape(t) == t[..n] + Escape(t[n..])
  {
    hide Escape;
    if n == 0 {
      assert t[0..] == t;
    } else {
      EscapeStep(t);
      EscapeKeeps(t[1..], n - 1);
      assert t[1..][n - 1..] == t[n..];
      assert t[..n] == [t[0]] + t[1..][..n - 1];
      var x, y := t[1..][..n - 1], Escape(t[n..]);
      assert [t[0]] + (x + y) == ([t[0]] + x) + y;
    }
  }

  lemma {:induction false} WordsAre(c: Classes, t: string, n: nat)
    requires n <= |t| && (n < |t| ==> !c.word(t[n])) && forall k | 0 <= k < n :: c.word(t[k])
    ensures Words(c, t) == n
  {
    if n > 0 { WordsAre(c, t[1..], n - 1); }
  }

  /** Where a brace stops both texts, they show the same marker. */
  ghost predicate SameUntilBrace(s: string, t: string, p: nat) {
    && p <= |s| && p <= |t| && (forall k | 0 <= k < p :: s[k] == t[k])
    && (|s| == p <==> |t| == p) && (p < |s| && p < |t| ==> IsBrace(s[p]) && IsBrace(t[p]))
  }

  lemma MarkerAgrees(c: Classes, s: string, t: string, p: nat)
    requires Sane(c) && SameUntilBrace(s, t, p)
    ensures Marker(c, s) == Marker(c, t)
  {
    assert "<<" <= s <==> |s| >= 2 && s[0] == s[1] == '<';
    assert "<<" <= t <==> |t| >= 2 && t[0] == t[1] == '<';
    if "<<" <= s && "<<" <= t {
      var n := Words(c, s[2..]);
      WordsAre(c, t[2..], n);
      assert ">>" <= s[n + 2..] <==> |s| >= n + 4 && s[n + 2] == s[n + 3] == '>';
      assert ">>" <= t[n + 2..] <==> |t| >= n + 4 && t[n + 2] == t[n + 3] == '>';
    }
  }

  function Plain(t: string): (n: nat)
    ensures n <= |t| && (n < |t| ==> IsBrace(t[n])) && forall k | 0 <= k < n :: !IsBrace(t[k])
  {
    if t == [] || IsBrace(t[0]) then 0 else 1 + Plain(t[1..])
  }

  /** Escaping neither makes, moves nor removes a marker. */
  lemma MarkerSurvives(c: Classes, t: string)
    requires Sane(c)
    ensures Marker(c, Escape(t)) == Marker(c, t)
  {
    var p := Plain(t);
    EscapeKeeps(t, p);
    if p < |t| { EscapeStep(t[p..]); } else { assert Escape(t[p..]) == []; }
    hide Escape, Marker;
    assert SameUntilBrace(Escape(t), t, p);
    MarkerAgrees(c, Escape(t), t, p);
  }

  // ---------- step by step ----------

  predicate AllWord(c: Classes, name: string) {
    forall k | 0 <= k < |name| :: c.word(name[k])
  }

  /** A compiled marker is a field, and formatting it looks the name up. */
  lemma FieldStep(c: Classes, name: string, rest: string, values: Values)
    requires Sane(c) && name != [] && AllWord(c, name)
    ensures Format(c, "{" + name + "}" + rest, values) == Then(Lookup(c, values, name), Format(c, rest, values))
  {
    var t := "{" + name + "}" + rest;
    assert t[0] == '{' && t[1] == name[0] && t[|name| + 1] == '}';
    assert t[1..] == name + "}" + rest;
    WordsAre(c, t[1..], |name|);
    assert t[1..|name| + 1] == name && t[|name| + 2..] == rest;
  }

  lemma LiteralStep(c: Classes, x: char, rest: string, values: Values)
    ensures Format(c, Escaped(x) + rest, values) == Then(Success([x]), Format(c, rest, values))
  {
    var t := Escaped(x) + rest;
    assert t[|Escaped(x)|..] == rest;
    assert t[0] == x && (IsBrace(x) ==> t[1] == x);
  }

  lemma PsMarker(c: Classes, script: string, n: nat)
    requires Sane(c) && n == Marker(c, script) > 0
    ensures Ps(c, script) == "{" + script[2..n + 2] + "}" + Ps(c, script[n + 4..])
  {
    MarkerSurvives(c, script);
    NoBraceInMarker(c, script, n);
    hide Escape, Marker, IsBrace;
    EscapeKeeps(script, n + 4);
    FieldOf(c, Escape(script), script[..n + 4], Escape(script[n + 4..]), n);
  }

  lemma NoBraceInMarker(c: Classes, t: string, n: nat)
    requires Sane(c) && n == Marker(c, t) > 0
    ensures forall k | 0 <= k < n + 4 :: !IsBrace(t[k])
  {
    assert forall k | 0 <= k < n :: c.word(t[2..][k]);
    assert t[0] == t[1] == '<' && t[n + 2..][0] == t[n + 2..][1] == '>';
    forall k | 0 <= k < n + 4 ensures !IsBrace(t[k]) {
      if 2 <= k < n + 2 { assert t[k] == t[2..][k - 2]; }
    }
  }

  lemma FieldOf(c: Classes, t: string, front: string, rest: string, n: nat)
    requires n == Marker(c, t) > 0 && t == front + rest && |front| == n + 4
    ensures MarkersToFields(c, t) == "{" + front[2..n + 2] + "}" + MarkersToFields(c, rest)
  {
    hide Marker;
    assert t[n + 4..] == rest && t[2..n + 2] == front[2..n + 2];
  }

  lemma CopyStep(c: Classes, x: char, rest: string)
    requires Marker(c, [x] + rest) == 0
    ensures MarkersToFields(c, [x] + rest) == [x] + MarkersToFields(c, rest)
  {
    assert ([x] + rest)[1..] == rest;
  }

  lemma NoMarkerAtBrace(c: Classes, x: char, rest: string)
    requires IsBrace(x)
    ensures Marker(c, [x] + rest) == 0
  {
    assert ([x] + rest)[0] == x;
  }

  lemma EscapedStep(c: Classes, x: char, rest: string)
    requires IsBrace(x) || Marker(c, [x] + rest) == 0
    ensures MarkersToFields(c, Escaped(x) + rest) == Escaped(x) + MarkersToFields(c, rest)
  {
    hide Marker, MarkersToFields;
    if IsBrace(x) {
      NoMarkerAtBrace(c, x, [x] + rest);
      NoMarkerAtBrace(c, x, rest);
      CopyStep(c, x, [x] + rest);
      CopyStep(c, x, rest);
      var after := MarkersToFields(c, rest);
      assert [x] + ([x] + rest) == Escaped(x) + rest;
      assert [x] + ([x] + after) == Escaped(x) + after;
    } else {
      CopyStep(c, x, rest);
    }
  }

  lemma PsLiteral(c: Classes, script: string)
    requires Sane(c) && script != [] && Marker(c, script) == 0
    ensures Ps(c, script) == Escaped(script[0]) + Ps(c, script[1..])
  {
    MarkerSurvives(c, script);
    EscapeStep(script);
    var rest := Escape(script[1..]);
    assert !IsBrace(script[0]) ==> Escape(script) == [script[0]] + rest;
    hide Escape, Marker, MarkersToFields, Escaped;
    EscapedStep(c, script[0], rest);
  }

  /** Compiling and then formatting is one simultaneous substitution, for every
      script and every set of values, down to which error is raised. */
  lemma {:induction false} FormatOfPs(c: Classes, script: string, values: Values)
    requires Sane(c)
    ensures Format(c, Ps(c, script), values) == Substituted(c, script, values)
    decreases |script|
  {
    if script != [] {
      hide Ps, Format, Escape, Escaped;
      var n := Marker(c, script);
      if n > 0 {
        PsMarker(c, script, n);
        MarkerName(c, script);
        FieldStep(c, script[2..n + 2], Ps(c, script[n + 4..]), values);
        FormatOfPs(c, script[n + 4..], values);
      } else {
        PsLiteral(c, script);
        LiteralStep(c, script[0], Ps(c, script[1..]), values);
        FormatOfPs(c, script[1..], values);
      }
    }
  }

  lemma MarkerName(c: Classes, t: string)
    requires Marker(c, t) > 0
    ensures AllWord(c, t[2..Marker(c, t) + 2])
  {
    var n := Marker(c, t);
    assert forall k | 0 <= k < n :: c.word(t[2..][k]);
    assert t[2..n + 2] == t[2..][..n];
  }

  // ---------- what a substitution is ----------

  /** A marker is two angle brackets, a name of word characters and two more. */
  lemma MarkerExactly(c: Classes, t: string, name: string)
    requires Sane(c)
    ensures Marker(c, t) > 0 && t[2..Marker(c, t) + 2] == name
            <==> name != [] && AllWord(c, name) && "<<" + name + ">>" <= t
  {
    var n := |name|;
    if Marker(c, t) > 0 && t[2..Marker(c, t) + 2] == name {
      MarkerName(c, t);
      assert t[n + 2..][..2] == ">>";
      assert t[..n + 4] == "<<" + name + ">>";
    }
    if name != [] && AllWord(c, name) && "<<" + name + ">>" <= t {
      var mark := "<<" + name + ">>";
      assert t[..n + 4] == mark;
      assert forall k | 0 <= k < n :: t[2..][k] == mark[k + 2] == name[k];
      assert t[2..][n] == mark[n + 2] == '>';
      WordsAre(c, t[2..], n);
      assert t[n + 2..][0] == mark[n + 2] && t[n + 2..][1] == mark[n + 3];
      assert t[2..n + 2] == name;
    }
  }

  /** No marker starts before position `n`. */
  predicate NoMarkerBefore(c: Classes, t: string, n: nat)
    requires n <= |t|
  {
    forall k | 0 <= k < n :: Marker(c, t[k..]) == 0
  }

  lemma {:induction false} CopiedBefore(c: Classes, t: string, values: Values, n: nat)
    requires n <= |t| && NoMarkerBefore(c, t, n)
    ensures Substituted(c, t, values) == Then(Success(t[..n]), Substituted(c, t[n..], values))
    decreases n
  {
    if n == 0 {
      assert t[0..] == t;
      assert forall s: string :: [] + s == s;
    } else {
      assert t[0..] == t;
      hide Marker;
      assert forall k | 0 <= k < n - 1 :: t[1..][k..] == t[k + 1..];
      CopiedBefore(c, t[1..], values, n - 1);
      assert t[1..][n - 1..] == t[n..];
      assert t[..n] == [t[0]] + t[1..][..n - 1];
      ThenJoins([t[0]], t[1..][..n - 1], Substituted(c, t[n..], values));
      hide Substituted;
    }
  }

  lemma ThenJoins(a: string, b: string, rest: Result<string, Error>)
    ensures Then(Success(a), Then(Success(b), rest)) == Then(Success(a + b), rest)
  {
    if rest.Success? { assert a + (b + rest.value) == (a + b) + rest.value; }
  }

  /** A script without a marker comes out as it is. */
  lemma UnmarkedIsCopied(c: Classes, script: string, values: Values)
    requires NoMarkerBefore(c, script, |script|)
    ensures Substituted(c, script, values) == Success(script)
  {
    CopiedBefore(c, script, values, |script|);
    assert script[|script|..] == [] && script[..|script|] == script && script + [] == script;
  }

  /** Up to its first marker a script is copied, the marker becomes the value of its name,
      and what follows the marker is substituted in turn: the value is not looked at. */
  lemma FirstMarkerIsSubstituted(c: Classes, before: string, name: string, rest: string, values: Values)
    requires Sane(c) && name != [] && AllWord(c, name) && name in values && !IsPosition(c, name)
    requires NoMarkerBefore(c, before + ("<<" + name + ">>" + rest), |before|)
    ensures Substituted(c, before + ("<<" + name + ">>" + rest), values)
            == Then(Success(before + values[name]), Substituted(c, rest, values))
  {
    var tail := "<<" + name + ">>" + rest;
    CopiedBefore(c, before + tail, values, |before|);
    assert (before + tail)[..|before|] == before && (before + tail)[|before|..] == tail;
    MarkerSubstituted(c, name, rest, values);
    ThenJoins(before, values[name], Substituted(c, rest, values));
  }

  lemma MarkerSubstituted(c: Classes, name: string, rest: string, values: Values)
    requires Sane(c) && name != [] && AllWord(c, name) && name in values && !IsPosition(c, name)
    ensures Substituted(c, "<<" + name + ">>" + rest, values)
            == Then(Success(values[name]), Substituted(c, rest, values))
  {
    var t := "<<" + name + ">>" + rest;
    MarkerExactly(c, t, name);
    assert t[..|name| + 4] == "<<" + name + ">>" && t[|name| + 4..] == rest;
    hide Marker, IsPosition;
    assert Lookup(c, values, name) == Success(values[name]) by { LookupSucceeds(c, values, name); }
  }

  // ---------- when it succeeds ----------

  /** The names a script marks. */
  function Marked(c: Classes, script: string): set<string> {
    if script == [] then {}
    else
      var n := Marker(c, script);
      if n > 0 then {script[2..n + 2]} + Marked(c, script[n + 4..]) else Marked(c, script[1..])
  }

  lemma LookupSucceeds(c: Classes, values: Values, name: string)
    ensures Lookup(c, values, name).Success? <==> name in values && !IsPosition(c, name)
    ensures Lookup(c, values, name).Success? ==> Lookup(c, values, name).value == values[name]
  {
  }

  /** Building succeeds exactly when every marker is a declared name and none is
      read as a position; no script can fail for its braces. */
  lemma {:induction false} SucceedsExactly(c: Classes, script: string, values: Values)
    requires Sane(c)
    ensures Format(c, Ps(c, script), values).Success?
            <==> forall name | name in Marked(c, script) :: name in values && !IsPosition(c, name)
    decreases |script|
  {
    FormatOfPs(c, script, values);
    if script != [] {
      hide Ps, Format;
      var n := Marker(c, script);
      if n > 0 { LookupSucceeds(c, values, script[2..n + 2]); }
      hide Lookup, IsPosition;
      FormatOfPs(c, if n > 0 then script[n + 4..] else script[1..], values);
      SucceedsExactly(c, if n > 0 then script[n + 4..] else script[1..], values);
    }
  }
}
