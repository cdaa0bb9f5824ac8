/** sep.join(fields), and what can be read back from it. */
module Joins {

  predicate Plain(sep: char, field: string) {
    forall k | 0 <= k < |field| :: field[k] != sep
  }

  function Join(sep: char, fields: seq<string>): string {
    if fields == [] then ""
    else if |fields| == 1 then fields[0]
    else fields[0] + [sep] + Join(sep, fields[1..])
  }

  lemma {:induction false} JoinSnoc(sep: char, fields: seq<string>, last: string)
    requires fields != []
    ensures Join(sep, fields + [last]) == Join(sep, fields) + [sep] + last
  {
    if |fields| == 1 {
      assert (fields + [last])[1..] == [last];
    } else {
      assert (fields + [last])[1..] == fields[1..] + [last];
      JoinSnoc(sep, fields[1..], last);
    }
  }

  lemma {:induction false} JoinSplits(sep: char, fields: seq<string>, k: nat)
    requires 0 < k < |fields|
    ensures Join(sep, fields) == Join(sep, fields[..k]) + [sep] + Join(sep, fields[k..])
  {
    if k == 1 {
      assert fields[..1] == [fields[0]];
    } else {
      var rest := fields[1..];
      JoinSplits(sep, rest, k - 1);
      assert fields[..k][1..] == rest[..k - 1] && rest[k - 1..] == fields[k..];
      var x, y, z := fields[0], Join(sep, rest[..k - 1]), Join(sep, fields[k..]);
      assert Join(sep, fields) == x + [sep] + Join(sep, rest) && Join(sep, fields[..k]) == x + [sep] + y;
      hide Join;
      assert x + [sep] + (y + [sep] + z) == x + [sep] + y + [sep] + z;
    }
  }

  /** The last separator is the one before a separator-free field. */
  lemma LastField(sep: char, a: string, x: string, b: string, y: string)
    requires Plain(sep, x) && Plain(sep, y) && a + [sep] + x == b + [sep] + y
    ensures a == b && x == y
  {
    var s, t := a + [sep] + x, b + [sep] + y;
    assert s[|a|] == sep && t[|b|] == sep;
    assert forall k | |a| < k < |s| :: s[k] == x[k - |a| - 1] != sep;
    assert forall k | |b| < k < |t| :: t[k] == y[k - |b| - 1] != sep;
    assert a == s[..|a|] && b == t[..|a|] && x == s[|a| + 1..] && y == t[|a| + 1..];
  }

  /** The first separator is the one after a separator-free field. */
  lemma FirstField(sep: char, x: string, a: string, y: string, b: string)
    requires Plain(sep, x) && Plain(sep, y) && x + [sep] + a == y + [sep] + b
    ensures x == y && a == b
  {
    var s, t := x + [sep] + a, y + [sep] + b;
    assert s[|x|] == sep && t[|y|] == sep;
    assert forall k | 0 <= k < |x| :: s[k] == x[k] != sep;
    assert forall k | 0 <= k < |y| :: t[k] == y[k] != sep;
    assert x == s[..|x|] && y == t[..|x|] && a == s[|x| + 1..] && b == t[|x| + 1..];
  }

  lemma HasSeparator(sep: char, fields: seq<string>)
    requires |fields| > 1
    ensures !Plain(sep, Join(sep, fields))
  {
    assert Join(sep, fields)[|fields[0]|] == sep;
  }

  /** Joining separator-free, non-empty fields loses nothing. */
  lemma {:induction false} JoinInjective(sep: char, fields: seq<string>, others: seq<string>)
    requires forall k | 0 <= k < |fields| :: Plain(sep, fields[k]) && fields[k] != []
    requires forall k | 0 <= k < |others| :: Plain(sep, others[k]) && others[k] != []
    requires Join(sep, fields) == Join(sep, others)
    ensures fields == others
    decreases |fields|
  {
    if |fields| > 1 { HasSeparator(sep, fields); }
    if |others| > 1 { HasSeparator(sep, others); }
    if |fields| > 1 && |others| > 1 {
      FirstField(sep, fields[0], Join(sep, fields[1..]), others[0], Join(sep, others[1..]));
      JoinInjective(sep, fields[1..], others[1..]);
      assert fields == [fields[0]] + fields[1..] && others == [others[0]] + others[1..];
    } else if |fields| == 1 {
      assert |others| == 1 && fields == [fields[0]] && others == [others[0]];
    }
  }
}
