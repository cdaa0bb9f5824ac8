/** The signature that makes two checks "the same check" (driver/limits.py). */
module Signatures {
  import opened Diagnostics
  import opened Joins
  import Decimal

  /** A dictionary in insertion order: no key twice. */
  type Items = seq<(string, Value)>

  predicate DistinctKeys(items: Items) {
    forall k, l | 0 <= k < l < |items| :: items[k].0 != items[l].0
  }

  /** Python's order on strings: by code point, a prefix first. */
  predicate Before(a: string, b: string) {
    if b == [] then false
    else if a == [] then true
    else a[0] < b[0] || (a[0] == b[0] && Before(a[1..], b[1..]))
  }

  function Insert(item: (string, Value), sorted: Items): Items {
    if sorted == [] || Before(item.0, sorted[0].0) then [item] + sorted
    else [sorted[0]] + Insert(item, sorted[1..])
  }

  /** sorted(arguments.items()): the keys differ, so values are never compared. */
  function Sorted(items: Items): Items {
    if items == [] then [] else Insert(items[0], Sorted(items[1..]))
  }

  function Pair(item: (string, Value)): string {
    item.0 + "=" + Str(item.1)
  }

  function Pairs(items: Items): seq<string> {
    seq(|items|, k requires 0 <= k < |items| => Pair(items[k]))
  }

  function Signature(diagnostic: string, items: Items): string {
    diagnostic + "|" + Join(',', Pairs(Sorted(items)))
  }

  // ---------- sorting ----------

  lemma {:induction false} BeforeIsStrict(a: string, b: string)
    ensures !(Before(a, b) && Before(b, a))
    ensures a != b ==> Before(a, b) || Before(b, a)
  {
    if a != [] && b != [] && a[0] == b[0] {
      BeforeIsStrict(a[1..], b[1..]);
      assert a == [a[0]] + a[1..] && b == [b[0]] + b[1..];
    }
  }

  lemma {:induction false} BeforeTransitive(a: string, b: string, c: string)
    requires Before(a, b) && Before(b, c)
    ensures Before(a, c)
  {
    if a != [] && a[0] == b[0] == c[0] { BeforeTransitive(a[1..], b[1..], c[1..]); }
  }

  predicate Ascending(items: Items) {
    forall k, l | 0 <= k < l < |items| :: Before(items[k].0, items[l].0)
  }

  lemma {:induction false} InsertAdds(item: (string, Value), sorted: Items)
    ensures multiset(Insert(item, sorted)) == multiset(sorted) + multiset{item}
  {
    if sorted != [] && !Before(item.0, sorted[0].0) {
      InsertAdds(item, sorted[1..]);
      assert sorted == [sorted[0]] + sorted[1..];
    }
  }

  lemma {:induction false} InsertKeeps(item: (string, Value), sorted: Items)
    requires Ascending(sorted) && forall k | 0 <= k < |sorted| :: sorted[k].0 != item.0
    ensures Ascending(Insert(item, sorted))
  {
    if sorted == [] || Before(item.0, sorted[0].0) {
      forall k | 0 < k < |sorted| ensures Before(item.0, sorted[k].0) {
        BeforeTransitive(item.0, sorted[0].0, sorted[k].0);
      }
    } else {
      BeforeIsStrict(item.0, sorted[0].0);
      InsertKeeps(item, sorted[1..]);
      InsertAdds(item, sorted[1..]);
      var rest := Insert(item, sorted[1..]);
      hide Before;
      assert Insert(item, sorted) == [sorted[0]] + rest;
      hide Insert;
      forall k | 0 <= k < |rest| ensures Before(sorted[0].0, rest[k].0) {
        assert rest[k] in multiset(rest);
      }
    }
  }

  lemma {:induction false} SortedKeeps(items: Items)
    requires DistinctKeys(items)
    ensures Ascending(Sorted(items)) && multiset(Sorted(items)) == multiset(items)
  {
    if items != [] {
      var rest := Sorted(items[1..]);
      SortedKeeps(items[1..]);
      assert items == [items[0]] + items[1..];
      forall k | 0 <= k < |rest| ensures rest[k].0 != items[0].0 {
        assert rest[k] in multiset(items[1..]);
      }
      InsertKeeps(items[0], rest);
      InsertAdds(items[0], rest);
    }
  }

  lemma HeadIsLeast(items: Items, x: (string, Value))
    requires Ascending(items) && x in multiset(items)
    ensures items != [] && (items[0] == x || Before(items[0].0, x.0))
  {
    hide Before;
    var k :| 0 <= k < |items| && items[k] == x;
  }

  lemma TailItems(items: Items)
    requires items != []
    ensures items == [items[0]] + items[1..] && multiset(items[1..]) == multiset(items) - multiset{items[0]}
  {
    assert items == [items[0]] + items[1..];
  }

  lemma {:induction false} AscendingUnique(a: Items, b: Items)
    requires Ascending(a) && Ascending(b) && multiset(a) == multiset(b)
    ensures a == b
  {
    if a != [] {
      assert a[0] in multiset(a);
      HeadIsLeast(b, a[0]);
      assert b[0] in multiset(b);
      HeadIsLeast(a, b[0]);
      BeforeIsStrict(a[0].0, b[0].0);
      hide Before;
      TailItems(a);
      TailItems(b);
      AscendingUnique(a[1..], b[1..]);
    } else {
      assert b == [] by { assert |multiset(b)| == 0; }
    }
  }

  /** The order in which a dictionary was filled makes no difference. */
  lemma SignatureIgnoresOrder(diagnostic: string, a: Items, b: Items)
    requires DistinctKeys(a) && DistinctKeys(b) && multiset(a) == multiset(b)
    ensures Signature(diagnostic, a) == Signature(diagnostic, b)
  {
    SortedKeeps(a);
    SortedKeeps(b);
    AscendingUnique(Sorted(a), Sorted(b));
  }

  // ---------- different checks ----------

  /** Keys and printed values that cannot be mistaken for the signature's own punctuation. */
  predicate Clear(item: (string, Value)) {
    Plain(',', item.0) && Plain('=', item.0) && Plain(',', Str(item.1))
  }

  lemma PairPlain(item: (string, Value))
    requires Clear(item)
    ensures Plain(',', Pair(item)) && Pair(item) != []
  {
  }

  lemma PairInjective(a: (string, Value), b: (string, Value))
    requires Clear(a) && Clear(b) && Pair(a) == Pair(b)
    ensures a.0 == b.0 && Str(a.1) == Str(b.1)
  {
    FirstField('=', a.0, Str(a.1), b.0, Str(b.1));
  }

  lemma SortedClear(items: Items)
    requires DistinctKeys(items) && forall k | 0 <= k < |items| :: Clear(items[k])
    ensures forall k | 0 <= k < |Sorted(items)| :: Clear(Sorted(items)[k])
  {
    SortedKeeps(items);
    forall k | 0 <= k < |Sorted(items)| ensures Clear(Sorted(items)[k]) {
      assert Sorted(items)[k] in multiset(items);
    }
  }

  /** Equal signatures come from the same diagnostic and the same printed pairs. */
  lemma SignatureReads(d: string, a: Items, e: string, b: Items)
    requires Plain('|', d) && Plain('|', e) && Signature(d, a) == Signature(e, b)
    requires DistinctKeys(a) && forall k | 0 <= k < |a| :: Clear(a[k])
    requires DistinctKeys(b) && forall k | 0 <= k < |b| :: Clear(b[k])
    ensures d == e && Pairs(Sorted(a)) == Pairs(Sorted(b))
  {
    FirstField('|', d, Join(',', Pairs(Sorted(a))), e, Join(',', Pairs(Sorted(b))));
    SortedClear(a);
    SortedClear(b);
    forall k | 0 <= k < |Sorted(a)| ensures Plain(',', Pairs(Sorted(a))[k]) && Pairs(Sorted(a))[k] != [] {
      PairPlain(Sorted(a)[k]);
    }
    forall k | 0 <= k < |Sorted(b)| ensures Plain(',', Pairs(Sorted(b))[k]) && Pairs(Sorted(b))[k] != [] {
      PairPlain(Sorted(b)[k]);
    }
    JoinInjective(',', Pairs(Sorted(a)), Pairs(Sorted(b)));
  }

  // ---------- what a signature tells apart ----------

  /** The same arguments given as text. */
  function AsText(items: Items): Items {
    seq(|items|, k requires 0 <= k < |items| => (items[k].0, Text(Str(items[k].1))))
  }

  lemma {:induction false} InsertAsText(item: (string, Value), sorted: Items)
    ensures AsText(Insert(item, sorted)) == Insert((item.0, Text(Str(item.1))), AsText(sorted))
  {
    if sorted != [] {
      assert AsText(sorted)[0].0 == sorted[0].0 && AsText(sorted)[1..] == AsText(sorted[1..]);
      if !Before(item.0, sorted[0].0) { InsertAsText(item, sorted[1..]); }
    }
  }

  lemma {:induction false} SortedAsText(items: Items)
    ensures Sorted(AsText(items)) == AsText(Sorted(items))
  {
    if items != [] {
      assert AsText(items)[1..] == AsText(items[1..]);
      SortedAsText(items[1..]);
      InsertAsText(items[0], Sorted(items[1..]));
    }
  }

  lemma SignatureAsText(diagnostic: string, items: Items)
    ensures Signature(diagnostic, AsText(items)) == Signature(diagnostic, items)
  {
    SortedAsText(items);
    var s := Sorted(items);
    forall k | 0 <= k < |s| ensures Pair(AsText(s)[k]) == Pair(s[k]) {
    }
    assert Pairs(AsText(s)) == Pairs(s);
  }

  /** Validated or not: where no name or printed value holds the signature's own
      punctuation, two signatures are equal exactly when the diagnostics are and the same
      names print the same values. */
  lemma SignatureTellsExactly(d: string, a: Items, e: string, b: Items)
    requires Plain('|', d) && Plain('|', e) && DistinctKeys(a) && DistinctKeys(b)
    requires (forall k | 0 <= k < |a| :: Clear(a[k])) && forall k | 0 <= k < |b| :: Clear(b[k])
    ensures Signature(d, a) == Signature(e, b) <==> d == e && multiset(AsText(a)) == multiset(AsText(b))
  {
    assert DistinctKeys(AsText(a)) && DistinctKeys(AsText(b));
    if Signature(d, a) == Signature(e, b) {
      SignatureReads(d, a, e, b);
      SamePrinted(a, b);
    } else if d == e && multiset(AsText(a)) == multiset(AsText(b)) {
      SignatureIgnoresOrder(d, AsText(a), AsText(b));
      SignatureAsText(d, a);
      SignatureAsText(d, b);
    }
  }

  lemma SamePrinted(a: Items, b: Items)
    requires DistinctKeys(a) && forall k | 0 <= k < |a| :: Clear(a[k])
    requires DistinctKeys(b) && forall k | 0 <= k < |b| :: Clear(b[k])
    requires DistinctKeys(AsText(a)) && DistinctKeys(AsText(b)) && Pairs(Sorted(a)) == Pairs(Sorted(b))
    ensures multiset(AsText(a)) == multiset(AsText(b))
  {
    var s, t := Sorted(a), Sorted(b);
    SortedClear(a);
    SortedClear(b);
    assert |s| == |Pairs(s)| == |Pairs(t)| == |t|;
    forall k | 0 <= k < |s| ensures AsText(s)[k] == AsText(t)[k] {
      assert Pairs(s)[k] == Pairs(t)[k];
      PairInjective(s[k], t[k]);
    }
    assert AsText(s) == AsText(t);
    SortedAsText(a);
    SortedAsText(b);
    SortedKeeps(AsText(a));
    SortedKeeps(AsText(b));
  }

  /** Declared parameters, each with a value its validator accepts. */
  ghost predicate Passes(d: Diagnostic, items: Items) {
    DistinctKeys(items) && forall k | 0 <= k < |items| :: Declares(d, items[k])
  }

  ghost predicate Declares(d: Diagnostic, item: (string, Value)) {
    exists p :: p in d.parameters && p.name == item.0 && Accepts(p.validator, item.1)
  }

  /** A catalogue entry: its names are Python identifiers, and no parameter is declared twice. */
  predicate WellNamed(d: Diagnostic) {
    && Plain('|', d.name)
    && (forall p | p in d.parameters :: Plain(',', p.name) && Plain('=', p.name))
    && (forall p, q | p in d.parameters && q in d.parameters && p.name == q.name :: p == q)
  }

  lemma PassingIsClear(d: Diagnostic, items: Items, k: nat)
    requires WellNamed(d) && Passes(d, items) && k < |items|
    ensures Clear(items[k])
  {
    assert Declares(d, items[k]);
    var p :| p in d.parameters && p.name == items[k].0 && Accepts(p.validator, items[k].1);
    forall j | 0 <= j < |Str(items[k].1)| ensures Str(items[k].1)[j] != ',' {
      AcceptedCharacters(p.validator, items[k].1, j);
    }
  }

  /** On arguments that pass a diagnostic's validators, two checks have the same
      signature exactly when they are the same check: so the repeat limit counts
      exactly repeats. */
  lemma SameSignatureIsSameCheck(d: Diagnostic, a: Items, e: Diagnostic, b: Items)
    requires WellNamed(d) && WellNamed(e) && Passes(d, a) && Passes(e, b) && (d.name == e.name ==> d == e)
    ensures Signature(d.name, a) == Signature(e.name, b) <==> d == e && multiset(a) == multiset(b)
  {
    if Signature(d.name, a) == Signature(e.name, b) {
      forall k | 0 <= k < |a| ensures Clear(a[k]) { PassingIsClear(d, a, k); }
      forall k | 0 <= k < |b| ensures Clear(b[k]) { PassingIsClear(e, b, k); }
      SignatureReads(d.name, a, e.name, b);
      SortedKeeps(a);
      SortedKeeps(b);
      var s, t := Sorted(a), Sorted(b);
      assert |Pairs(s)| == |s| && |Pairs(t)| == |t|;
      forall k | 0 <= k < |s| ensures s[k] == t[k] {
        assert Pairs(s)[k] == Pairs(t)[k];
        SamePair(d, a, s[k], b, t[k]);
      }
      assert s == t;
    } else if d == e && multiset(a) == multiset(b) {
      SignatureIgnoresOrder(d.name, a, b);
    }
  }

  lemma SamePair(d: Diagnostic, a: Items, x: (string, Value), b: Items, y: (string, Value))
    requires WellNamed(d) && Passes(d, a) && Passes(d, b)
    requires x in multiset(Sorted(a)) && y in multiset(Sorted(b)) && Pair(x) == Pair(y)
    ensures x == y
  {
    SortedKeeps(a);
    SortedKeeps(b);
    var j :| 0 <= j < |a| && a[j] == x;
    var k :| 0 <= k < |b| && b[k] == y;
    PassingIsClear(d, a, j);
    PassingIsClear(d, b, k);
    PairInjective(x, y);
    assert Declares(d, a[j]) && Declares(d, b[k]);
    var p :| p in d.parameters && p.name == x.0 && Accepts(p.validator, x.1);
    var q :| q in d.parameters && q.name == y.0 && Accepts(q.validator, y.1);
    AcceptedStrInjective(p.validator, x.1, y.1);
  }

  /** Before validation the signature can collide: for every whole-number parameter,
      a number its validator accepts and the text of that number, which it refuses,
      are one check to the repeat limit. */
  lemma UnvalidatedSignaturesCollide(d: Diagnostic, p: Parameter, n: int)
    requires WellNamed(d) && p in d.parameters && p.validator.BoundedInt? && p.validator.low <= n <= p.validator.high
    ensures var number, text := [(p.name, Number(n))], [(p.name, Text(Decimal.Str(n)))];
            && Passes(d, number) && !Passes(d, text)
            && Signature(d.name, number) == Signature(d.name, text)
  {
    var number, text := [(p.name, Number(n))], [(p.name, Text(Decimal.Str(n)))];
    assert Accepts(p.validator, number[0].1) && Declares(d, number[0]);
    assert !Declares(d, text[0]) by {
      forall q | q in d.parameters && q.name == p.name ensures q == p {}
    }
    var none: Items := [];
    assert number[1..] == none && text[1..] == none;
    assert Sorted(number) == number && Sorted(text) == text;
    assert Pairs(number) == Pairs(text) by { assert Pair(number[0]) == Pair(text[0]); }
  }
}
