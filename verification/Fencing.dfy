/** Fencing untrusted text for a model (driver/fencing.py). */
module Fencing {
  import opened Wrappers

  /** The two classes the pattern leaves to Python: \s, and which characters an
      upper-case letter matches when case is ignored. */
  datatype Classes = Classes(space: char -> bool, folds: (char, char) -> bool)

  const LETTERS := {'B', 'E', 'G', 'I', 'N', 'D', 'U', 'T', 'R', 'S'}

  /** What holds of them in Python. */
  ghost predicate Sane(c: Classes) {
    && c.space(' ') && c.space('\n') && !c.space('-') && !c.space('[')
    && (forall l | l in LETTERS :: c.folds(l, l))
    && (forall l, x | l in LETTERS && c.folds(l, x) :: !c.space(x) && x != '-' && x != '[')
    && (forall l, m, x | l in LETTERS && m in LETTERS && c.folds(l, x) && c.folds(m, x) :: l == m)
  }

  // ---------- the pattern ----------

  predicate AllSpace(c: Classes, t: string) {
    forall k | 0 <= k < |t| :: c.space(t[k])
  }

  predicate Spells(c: Classes, word: string, t: string) {
    |t| == |word| && forall k | 0 <= k < |word| :: c.folds(word[k], t[k])
  }

  /** \s+UNTRUSTED */
  ghost predicate IsGap(c: Classes, t: string) {
    exists k :: 0 < k <= |t| && AllSpace(c, t[..k]) && Spells(c, "UNTRUSTED", t[k..])
  }

  /** (BEGIN|END)\s+UNTRUSTED */
  ghost predicate IsWord(c: Classes, t: string) {
    exists k :: 0 < k <= |t| && (Spells(c, "BEGIN", t[..k]) || Spells(c, "END", t[..k])) && IsGap(c, t[k..])
  }

  /** \s*(BEGIN|END)\s+UNTRUSTED */
  ghost predicate IsTail(c: Classes, t: string) {
    exists k :: 0 <= k <= |t| && AllSpace(c, t[..k]) && IsWord(c, t[k..])
  }

  /** The whole pattern: three dashes, then the tail. */
  ghost predicate IsMarker(c: Classes, t: string) {
    "---" <= t && IsTail(c, t[3..])
  }

  // ---------- matching it ----------

  function Spaces(c: Classes, t: string): (n: nat)
    ensures n <= |t| && AllSpace(c, t[..n]) && (n < |t| ==> !c.space(t[n]))
  {
    if t == [] || !c.space(t[0]) then 0 else 1 + Spaces(c, t[1..])
  }

  predicate StartsWith(c: Classes, word: string, t: string) {
    |word| <= |t| && Spells(c, word, t[..|word|])
  }

  /** The length of the BEGIN or END in front, or 0. */
  function Keyword(c: Classes, t: string): (n: nat)
    ensures n in {0, 3, 5} && n <= |t|
  {
    if StartsWith(c, "BEGIN", t) then 5 else if StartsWith(c, "END", t) then 3 else 0
  }

  function MatchGap(c: Classes, t: string): (r: Option<nat>) {
    var n := Spaces(c, t);
    if n > 0 && StartsWith(c, "UNTRUSTED", t[n..]) then Some(n + 9) else None
  }

  function Shift(r: Option<nat>, n: nat): Option<nat> {
    if r.Some? then Some(r.value + n) else None
  }

  function MatchWord(c: Classes, t: string): (r: Option<nat>) {
    var n := Keyword(c, t);
    if n == 0 then None else Shift(MatchGap(c, t[n..]), n)
  }

  function MatchTail(c: Classes, t: string): (r: Option<nat>) {
    var n := Spaces(c, t);
    Shift(MatchWord(c, t[n..]), n)
  }

  /** Where the match that starts at the front ends. */
  function Match(c: Classes, t: string): (r: Option<nat>) {
    if "---" <= t && MatchTail(c, t[3..]).Some? then Some(3 + MatchTail(c, t[3..]).value) else None
  }

  lemma SplitPrefix(t: string, n: nat, k: nat)
    requires k <= n <= |t|
    ensures t[..n][..k] == t[..k] && t[..n][k..] == t[k..][..n - k]
  {
  }

  lemma GapSound(c: Classes, t: string)
    requires MatchGap(c, t).Some?
    ensures MatchGap(c, t).value <= |t| && IsGap(c, t[..MatchGap(c, t).value])
  {
    var n := Spaces(c, t);
    var gap := t[..n + 9];
    assert gap[..n] == t[..n] && gap[n..] == t[n..][..9];
  }

  lemma WordSound(c: Classes, t: string)
    requires MatchWord(c, t).Some?
    ensures MatchWord(c, t).value <= |t| && IsWord(c, t[..MatchWord(c, t).value])
  {
    var n := Keyword(c, t);
    GapSound(c, t[n..]);
    hide MatchGap, IsGap, Spells;
    var word := t[..MatchWord(c, t).value];
    assert word[..n] == t[..n] && word[n..] == t[n..][..|word| - n];
  }

  lemma TailSound(c: Classes, t: string)
    requires MatchTail(c, t).Some?
    ensures MatchTail(c, t).value <= |t| && IsTail(c, t[..MatchTail(c, t).value])
  {
    var n := Spaces(c, t);
    WordSound(c, t[n..]);
    var m := MatchTail(c, t).value;
    hide MatchWord, IsWord, AllSpace, MatchTail;
    SplitPrefix(t, m, n);
    assert IsWord(c, t[..m][n..]);
  }

  lemma {:induction false} SpacesAre(c: Classes, t: string, k: nat)
    requires k < |t| && AllSpace(c, t[..k]) && !c.space(t[k])
    ensures Spaces(c, t) == k
  {
    if k > 0 {
      assert t[..k][0] == t[0] && t[1..][..k - 1] == t[..k][1..];
      SpacesAre(c, t[1..], k - 1);
    }
  }

  lemma FirstFolds(c: Classes, word: string, t: string)
    requires Sane(c) && word != [] && word[0] in LETTERS && Spells(c, word, t)
    ensures c.folds(word[0], t[0]) && !c.space(t[0])
  {
  }

  lemma GapComplete(c: Classes, t: string, n: nat)
    requires Sane(c) && n <= |t| && IsGap(c, t[..n])
    ensures MatchGap(c, t) == Some(n)
  {
    var gap := t[..n];
    var k :| 0 < k <= |gap| && AllSpace(c, gap[..k]) && Spells(c, "UNTRUSTED", gap[k..]);
    FirstFolds(c, "UNTRUSTED", gap[k..]);
    assert gap[..k] == t[..k] && gap[k..] == t[k..][..9];
    assert gap[k..][0] == t[k];
    SpacesAre(c, t, k);
  }

  lemma WordComplete(c: Classes, t: string, n: nat)
    requires Sane(c) && n <= |t| && IsWord(c, t[..n])
    ensures t != [] && MatchWord(c, t) == Some(n) && !c.space(t[0])
  {
    var word := t[..n];
    var k :| 0 < k <= |word| && (Spells(c, "BEGIN", word[..k]) || Spells(c, "END", word[..k])) && IsGap(c, word[k..]);
    hide Sane, Spells, IsGap, MatchWord, IsWord;
    SplitPrefix(t, n, k);
    WordCompleteAt(c, t, n, k);
  }

  lemma WordCompleteAt(c: Classes, t: string, n: nat, k: nat)
    requires Sane(c) && 0 < k <= n <= |t| && (Spells(c, "BEGIN", t[..k]) || Spells(c, "END", t[..k]))
    requires IsGap(c, t[k..][..n - k])
    ensures MatchWord(c, t) == Some(n) && !c.space(t[0])
  {
    hide Sane, Spells, IsGap, MatchGap, Keyword;
    KeywordIs(c, t, k);
    GapComplete(c, t[k..], n - k);
  }

  lemma KeywordIs(c: Classes, t: string, k: nat)
    requires Sane(c) && 0 < k <= |t| && (Spells(c, "BEGIN", t[..k]) || Spells(c, "END", t[..k]))
    ensures Keyword(c, t) == k && !c.space(t[0])
  {
    assert t[..k][0] == t[0];
    if Spells(c, "BEGIN", t[..k]) { FirstFolds(c, "BEGIN", t[..k]); } else { FirstFolds(c, "END", t[..k]); }
    NotBoth(c, t);
  }

  lemma NotBoth(c: Classes, t: string)
    requires Sane(c)
    ensures !(StartsWith(c, "BEGIN", t) && StartsWith(c, "END", t))
  {
    assert |t| >= 5 ==> t[..5][0] == t[0] && t[..3][0] == t[0];
    assert 'B' in LETTERS && 'E' in LETTERS;
    assert StartsWith(c, "BEGIN", t) ==> c.folds("BEGIN"[0], t[0]);
    assert StartsWith(c, "END", t) ==> c.folds("END"[0], t[0]);
  }

  lemma TailComplete(c: Classes, t: string, n: nat)
    requires Sane(c) && n <= |t| && IsTail(c, t[..n])
    ensures MatchTail(c, t) == Some(n)
  {
    var tail := t[..n];
    var k :| 0 <= k <= |tail| && AllSpace(c, tail[..k]) && IsWord(c, tail[k..]);
    hide *;
    SplitPrefix(t, n, k);
    TailCompleteAt(c, t, n, k);
  }

  lemma TailCompleteAt(c: Classes, t: string, n: nat, k: nat)
    requires Sane(c) && k <= n <= |t| && AllSpace(c, t[..k]) && IsWord(c, t[k..][..n - k])
    ensures MatchTail(c, t) == Some(n)
  {
    hide *;
    WordComplete(c, t[k..], n - k);
    assert t[k..][0] == t[k];
    SpacesAre(c, t, k);
    TailAfterSpaces(c, t);
  }

  lemma TailAfterSpaces(c: Classes, t: string)
    ensures MatchWord(c, t[Spaces(c, t)..]).Some? ==>
              MatchTail(c, t) == Some(MatchWord(c, t[Spaces(c, t)..]).value + Spaces(c, t))
  {
    hide MatchWord, Spaces;
  }

  lemma MatchIsMarker(c: Classes, t: string)
    requires Sane(c)
    ensures Match(c, t).Some? ==> 3 <= Match(c, t).value <= |t| && IsMarker(c, t[..Match(c, t).value])
    ensures forall n | 0 <= n <= |t| && IsMarker(c, t[..n]) :: Match(c, t) == Some(n)
  {
    hide Sane, MatchTail, IsTail;
    if Match(c, t).Some? {
      TailSound(c, t[3..]);
      SplitPrefix(t, Match(c, t).value, 3);
    }
    forall n | 0 <= n <= |t| && IsMarker(c, t[..n]) ensures Match(c, t) == Some(n) {
      SplitPrefix(t, n, 3);
      TailComplete(c, t[3..], n - 3);
    }
  }

  // ---------- defusing ----------

  const DEFUSED := "[marker-like text removed]"

  /** _MARKER_SHAPE.sub(DEFUSED, t): left to right, without rescanning. */
  function Defuse(c: Classes, t: string): string
    decreases |t|
  {
    if t == [] then []
    else if Match(c, t).Some? && 0 < Match(c, t).value <= |t| then DEFUSED + Defuse(c, t[Match(c, t).value..])
    else [t[0]] + Defuse(c, t[1..])
  }

  /** Neither dashes, nor spaces, nor letters of a marker. */
  predicate NoBracket(t: string) {
    forall k | 0 <= k < |t| :: t[k] != '['
  }

  lemma SpellsNoBracket(c: Classes, word: string, t: string)
    requires Sane(c) && Spells(c, word, t) && forall k | 0 <= k < |word| :: word[k] in LETTERS
    ensures NoBracket(t)
  {
  }

  lemma SplitNoBracket(t: string, k: nat)
    requires k <= |t| && NoBracket(t[..k]) && NoBracket(t[k..])
    ensures NoBracket(t)
  {
    forall j | 0 <= j < |t| ensures t[j] != '[' {
      assert if j < k then t[j] == t[..k][j] else t[j] == t[k..][j - k];
    }
  }

  lemma GapNoBracket(c: Classes, t: string)
    requires Sane(c) && IsGap(c, t)
    ensures NoBracket(t)
  {
    var k :| 0 < k <= |t| && AllSpace(c, t[..k]) && Spells(c, "UNTRUSTED", t[k..]);
    SpellsNoBracket(c, "UNTRUSTED", t[k..]);
    SplitNoBracket(t, k);
  }

  lemma WordNoBracket(c: Classes, t: string)
    requires Sane(c) && IsWord(c, t)
    ensures NoBracket(t)
  {
    var k :| 0 < k <= |t| && (Spells(c, "BEGIN", t[..k]) || Spells(c, "END", t[..k])) && IsGap(c, t[k..]);
    GapNoBracket(c, t[k..]);
    SpellsNoBracket(c, if Spells(c, "BEGIN", t[..k]) then "BEGIN" else "END", t[..k]);
    SplitNoBracket(t, k);
  }

  lemma TailNoBracket(c: Classes, t: string)
    requires Sane(c) && IsTail(c, t)
    ensures NoBracket(t)
  {
    var k :| 0 <= k <= |t| && AllSpace(c, t[..k]) && IsWord(c, t[k..]);
    WordNoBracket(c, t[k..]);
    SplitNoBracket(t, k);
  }

  lemma MarkerNoBracket(c: Classes, t: string)
    requires Sane(c) && IsMarker(c, t)
    ensures NoBracket(t) && |t| > 3
  {
    TailNoBracket(c, t[3..]);
    hide Sane, IsTail;
    assert t == t[..3] + t[3..];
    assert t[..3] == "---";
  }

  lemma HeadKept(c: Classes, t: string)
    requires Defuse(c, t) != [] && Defuse(c, t)[0] != '['
    ensures t != [] && Defuse(c, t) == [t[0]] + Defuse(c, t[1..])
  {
    hide Match;
    assert DEFUSED[0] == '[';
  }

  lemma {:induction false} KeptUpToBracket(c: Classes, t: string, n: nat)
    requires n <= |Defuse(c, t)| && forall k | 0 <= k < n :: Defuse(c, t)[k] != '['
    ensures n <= |t| && forall k | 0 <= k < n :: Defuse(c, t)[k] == t[k]
    decreases |t|
  {
    hide Defuse;
    if n > 0 {
      HeadKept(c, t);
      var d, after := Defuse(c, t), Defuse(c, t[1..]);
      assert forall k | 0 <= k < |after| :: after[k] == d[k + 1];
      KeptUpToBracket(c, t[1..], n - 1);
      forall k | 0 < k < n ensures d[k] == t[k] {
        assert after[k - 1] == d[k] && t[1..][k - 1] == t[k];
      }
    }
  }

  /** Up to the first replacement, nothing changes. */
  lemma UnchangedUpToBracket(c: Classes, t: string, n: nat)
    requires n <= |Defuse(c, t)| && NoBracket(Defuse(c, t)[..n])
    ensures n <= |t| && Defuse(c, t)[..n] == t[..n]
  {
    hide Defuse;
    assert forall k | 0 <= k < n :: Defuse(c, t)[..n][k] == Defuse(c, t)[k];
    KeptUpToBracket(c, t, n);
  }

  lemma NoMarkerInFront(c: Classes, t: string)
    requires Sane(c)
    ensures Match(c, Defuse(c, t)).None?
  {
    var d := Defuse(c, t);
    assert DEFUSED[0] == '[';
    MatchIsMarker(c, d);
    if Match(c, d).Some? {
      var n := Match(c, d).value;
      MarkerNoBracket(c, d[..n]);
      assert d[..n][0] == d[0];
      UnchangedUpToBracket(c, t, n);
      MatchIsMarker(c, t);
    }
  }

  lemma Dashes(t: string)
    ensures "---" <= t <==> |t| >= 3 && t[0] == t[1] == t[2] == '-'
  {
    assert "---"[0] == "---"[1] == "---"[2] == '-';
  }

  /** The replacement text has no three dashes in a row for a marker to start with. */
  lemma NoMarkerInDefused(c: Classes, rest: string, i: nat)
    requires i < |DEFUSED|
    ensures Match(c, (DEFUSED + rest)[i..]).None?
  {
    var t := (DEFUSED + rest)[i..];
    assert t[0] == DEFUSED[i];
    assert i + 1 < |DEFUSED| ==> t[1] == DEFUSED[i + 1];
    assert DEFUSED[|DEFUSED| - 1] == ']' && DEFUSED[8] == 'l';
    assert DEFUSED[i] == '-' ==> i == 7;
    Dashes(t);
  }

  /** For every content, no marker is left anywhere in it: not in what was kept,
      not in a replacement, and not across the boundary of the two. */
  lemma {:induction false} DefusingLeavesNoMarker(c: Classes, t: string, i: nat)
    requires Sane(c) && i <= |Defuse(c, t)|
    ensures Match(c, Defuse(c, t)[i..]).None?
    decreases |t|
  {
    NoMarkerInFront(c, t);
    DefuseStep(c, t);
    hide Sane, Defuse, Match;
    if i == 0 {
      assert Defuse(c, t)[0..] == Defuse(c, t);
    } else {
      var (first, rest) := Piece(c, t);
      if i < |first| {
        NoMarkerInDefused(c, Defuse(c, rest), i);
      } else {
        assert (first + Defuse(c, rest))[i..] == Defuse(c, rest)[i - |first|..];
        DefusingLeavesNoMarker(c, rest, i - |first|);
      }
    }
  }

  /** The first thing defusing writes, and what it goes on with. */
  function Piece(c: Classes, t: string): (r: (string, string))
    requires t != []
    ensures |r.1| < |t| && (r.0 == DEFUSED || |r.0| == 1)
  {
    var m := Match(c, t);
    if m.Some? && 0 < m.value <= |t| then (DEFUSED, t[m.value..]) else ([t[0]], t[1..])
  }

  lemma DefuseStep(c: Classes, t: string)
    ensures t == [] ==> Defuse(c, t) == []
    ensures t != [] ==> Defuse(c, t) == Piece(c, t).0 + Defuse(c, Piece(c, t).1)
  {
    hide Match;
  }

  // ---------- what defusing leaves ----------

  /** No marker starts before position `n`. */
  ghost predicate NoMarkerBefore(c: Classes, t: string, n: nat)
    requires n <= |t|
  {
    forall k, m | 0 <= k < n && 0 <= m <= |t| - k :: !IsMarker(c, t[k..][..m])
  }

  lemma NothingMatches(c: Classes, t: string)
    requires Sane(c) && t != [] && NoMarkerBefore(c, t, 1)
    ensures Match(c, t).None?
  {
    MatchIsMarker(c, t);
    hide Match, IsMarker, Sane;
    assert t[0..] == t;
    assert forall m | 0 <= m <= |t| :: !IsMarker(c, t[0..][..m]);
  }

  lemma {:induction false} KeptBefore(c: Classes, t: string, n: nat)
    requires Sane(c) && n <= |t| && NoMarkerBefore(c, t, n)
    ensures Defuse(c, t) == t[..n] + Defuse(c, t[n..])
    decreases n
  {
    hide IsMarker, Sane, Match, Defuse;
    if n == 0 {
      assert t[0..] == t && t[..0] == [];
    } else {
      assert NoMarkerBefore(c, t, 1);
      NothingMatches(c, t);
      DefuseStep(c, t);
      assert Piece(c, t) == ([t[0]], t[1..]);
      forall k, m | 0 <= k < n - 1 && 0 <= m <= |t[1..]| - k ensures !IsMarker(c, t[1..][k..][..m]) {
        assert t[1..][k..] == t[k + 1..];
      }
      KeptBefore(c, t[1..], n - 1);
      assert t[1..][n - 1..] == t[n..];
      assert t[..n] == [t[0]] + t[1..][..n - 1];
    }
  }

  /** Content without a marker is left exactly as it is. */
  lemma UnmarkedIsKept(c: Classes, t: string)
    requires Sane(c) && NoMarkerBefore(c, t, |t|)
    ensures Defuse(c, t) == t
  {
    KeptBefore(c, t, |t|);
    assert t[|t|..] == [] && t[..|t|] == t;
  }

  /** Everything before the first marker is kept, the marker is replaced, and what follows
      is defused in turn. */
  lemma FirstMarkerIsReplaced(c: Classes, before: string, marker: string, rest: string)
    requires Sane(c) && IsMarker(c, marker) && NoMarkerBefore(c, before + (marker + rest), |before|)
    ensures Defuse(c, before + (marker + rest)) == before + ("[marker-like text removed]" + Defuse(c, rest))
  {
    hide Defuse, Match, IsMarker, Sane, NoMarkerBefore;
    var tail := marker + rest;
    KeptBefore(c, before + tail, |before|);
    assert (before + tail)[..|before|] == before && (before + tail)[|before|..] == tail;
    MarkerInFront(c, marker, rest);
  }

  lemma MarkerInFront(c: Classes, marker: string, rest: string)
    requires Sane(c) && IsMarker(c, marker)
    ensures Defuse(c, marker + rest) == "[marker-like text removed]" + Defuse(c, rest)
  {
    var t := marker + rest;
    assert t[..|marker|] == marker && t[|marker|..] == rest;
    MatchIsMarker(c, t);
    MarkerNotEmpty(c, marker);
    DefuseStep(c, t);
    hide Defuse, Match, IsMarker, Sane;
  }

  lemma MarkerNotEmpty(c: Classes, marker: string)
    requires IsMarker(c, marker)
    ensures marker != []
  {
  }

  // ---------- the fenced block ----------

  function Title(name: string, tag: string): string {
    name + " [" + tag + "] "
  }

  function Opening(word: string): string {
    " " + word + " UNTRUSTED"
  }

  function Header(name: string, tag: string): string {
    "---" + (Opening("BEGIN") + (" " + Title(name, tag)))
  }

  function Footer(name: string, tag: string): string {
    "---" + (Opening("END") + (" " + Title(name, tag))) + "---"
  }

  function Fence(c: Classes, name: string, tag: string, content: string): string {
    Header(name, tag) + "---\n" + Defuse(c, content) + "\n" + Footer(name, tag)
  }

  /** The lines around the content, as they are written. */
  lemma FencedWhole(c: Classes, name: string, tag: string, content: string)
    ensures Header(name, tag) == "--- BEGIN UNTRUSTED " + Title(name, tag)
    ensures Footer(name, tag) == "--- END UNTRUSTED " + Title(name, tag) + "---"
    ensures Fence(c, name, tag, content)
            == Header(name, tag) + "---\n" + Defuse(c, content) + "\n" + Footer(name, tag)
  {
    var title := Title(name, tag);
    Words();
    hide Defuse, Title, Opening;
    Grouped("---", " BEGIN UNTRUSTED", " ", title);
    Grouped("---", " END UNTRUSTED", " ", title);
  }

  lemma Words()
    ensures Opening("BEGIN") == " BEGIN UNTRUSTED" && Opening("END") == " END UNTRUSTED"
    ensures "---" + (" BEGIN UNTRUSTED" + " ") == "--- BEGIN UNTRUSTED "
    ensures "---" + (" END UNTRUSTED" + " ") == "--- END UNTRUSTED "
  {
  }

  lemma Grouped(a: string, b: string, d: string, x: string)
    ensures a + (b + (d + x)) == (a + (b + d)) + x
  {
  }

  predicate NoDash(t: string) {
    forall k | 0 <= k < |t| :: t[k] != '-'
  }

  /** Only three dashes in a row can start a marker. */
  lemma StartsAtDashes(c: Classes, t: string, i: nat)
    requires i <= |t| && Match(c, t[i..]).Some?
    ensures i + 2 < |t| && t[i] == t[i + 1] == t[i + 2] == '-'
  {
    Dashes(t[i..]);
  }

  /** Whatever follows, the pattern's tail is decided by the text up to a line that cannot continue it. */
  lemma TailStopsAtLine(c: Classes, t: string, rest: string)
    requires Sane(c) && rest != [] && rest[0] == '-'
    ensures MatchTail(c, t + "\n" + rest).Some? <==> MatchTail(c, t).Some?
  {
    var s := t + "\n" + rest;
    hide MatchTail, IsTail;
    if MatchTail(c, t).Some? {
      TailSound(c, t);
      var n := MatchTail(c, t).value;
      assert s[..n] == t[..n];
      TailComplete(c, s, n);
    }
    if MatchTail(c, s).Some? {
      TailSound(c, s);
      var n := MatchTail(c, s).value;
      TailChars(c, s[..n]);
      EndsBeforeLine(t, rest, n, c);
      TailComplete(c, t, n);
    }
  }

  lemma EndsBeforeLine(t: string, rest: string, n: nat, c: Classes)
    requires c.space('\n') && rest != [] && rest[0] == '-'
    requires 0 < n <= |t + "\n" + rest|
    requires NoDash((t + "\n" + rest)[..n]) && !c.space((t + "\n" + rest)[..n][n - 1])
    ensures n <= |t| && (t + "\n" + rest)[..n] == t[..n]
  {
    var s := t + "\n" + rest;
    assert s[|t|] == '\n' && s[|t| + 1] == rest[0];
    assert forall k | 0 <= k < n :: s[..n][k] == s[k];
  }

  /** A tail holds no dash and does not end in a space. */
  lemma TailChars(c: Classes, t: string)
    requires Sane(c) && IsTail(c, t)
    ensures NoDash(t) && t != [] && !c.space(t[|t| - 1])
  {
    var k :| 0 <= k <= |t| && AllSpace(c, t[..k]) && IsWord(c, t[k..]);
    WordChars(c, t[k..]);
    SplitNoDash(t, k);
  }

  lemma WordChars(c: Classes, t: string)
    requires Sane(c) && IsWord(c, t)
    ensures NoDash(t) && t != [] && !c.space(t[|t| - 1])
  {
    var k :| 0 < k <= |t| && (Spells(c, "BEGIN", t[..k]) || Spells(c, "END", t[..k])) && IsGap(c, t[k..]);
    GapChars(c, t[k..]);
    SpellsNoDash(c, if Spells(c, "BEGIN", t[..k]) then "BEGIN" else "END", t[..k]);
    SplitNoDash(t, k);
  }

  lemma GapChars(c: Classes, t: string)
    requires Sane(c) && IsGap(c, t)
    ensures NoDash(t) && t != [] && !c.space(t[|t| - 1])
  {
    var k :| 0 < k <= |t| && AllSpace(c, t[..k]) && Spells(c, "UNTRUSTED", t[k..]);
    SpellsNoDash(c, "UNTRUSTED", t[k..]);
    assert t[k..][8] == t[|t| - 1] && c.folds("UNTRUSTED"[8], t[k..][8]);
    SplitNoDash(t, k);
  }

  lemma SpellsNoDash(c: Classes, word: string, t: string)
    requires Sane(c) && Spells(c, word, t) && forall k | 0 <= k < |word| :: word[k] in LETTERS
    ensures NoDash(t)
  {
  }

  lemma SplitNoDash(t: string, k: nat)
    requires k <= |t| && NoDash(t[..k]) && NoDash(t[k..])
    ensures NoDash(t)
  {
    forall j | 0 <= j < |t| ensures t[j] != '-' {
      assert if j < k then t[j] == t[..k][j] else t[j] == t[k..][j - k];
    }
  }

  /** A line break and a footer do not complete a marker the content started. */
  lemma MatchStopsAtLine(c: Classes, t: string, rest: string)
    requires Sane(c) && "---" <= rest && Match(c, t).None?
    ensures Match(c, t + "\n" + rest).None?
  {
    var s := t + "\n" + rest;
    Dashes(s);
    Dashes(t);
    assert s[|t|] == '\n';
    if |t| >= 3 {
      assert s[3..] == t[3..] + "\n" + rest;
      TailStopsAtLine(c, t[3..], rest);
    }
  }

  lemma OpensMarker(c: Classes, word: string, more: string)
    requires Sane(c) && word in {"BEGIN", "END"}
    ensures Match(c, "---" + Opening(word) + more).Some?
  {
    OpeningIsTail(c, word);
    MatchOfTail(c, Opening(word), more);
  }

  lemma MatchOfTail(c: Classes, tail: string, more: string)
    requires Sane(c) && IsTail(c, tail)
    ensures Match(c, "---" + tail + more).Some?
  {
    var t := "---" + tail + more;
    hide IsTail, Sane, MatchTail;
    assert t[3..][..|tail|] == tail;
    TailComplete(c, t[3..], |tail|);
    assert t[..3] == "---";
  }

  lemma OpeningIsTail(c: Classes, word: string)
    requires Sane(c) && word in {"BEGIN", "END"}
    ensures IsTail(c, Opening(word))
  {
    var tail, spelled := Opening(word), word + " UNTRUSTED";
    assert tail == " " + spelled && tail[1..] == spelled && tail[..1] == " ";
    OpeningIsWord(c, word);
    hide IsWord;
  }

  lemma OpeningIsWord(c: Classes, word: string)
    requires Sane(c) && word in {"BEGIN", "END"}
    ensures IsWord(c, word + " UNTRUSTED")
  {
    var spelled := word + " UNTRUSTED";
    assert spelled[..|word|] == word && spelled[|word|..] == " UNTRUSTED";
    assert Spells(c, word, word);
    UntrustedIsGap(c);
    hide IsGap, Spells;
  }

  lemma UntrustedIsGap(c: Classes)
    requires Sane(c)
    ensures IsGap(c, " UNTRUSTED")
  {
    assert " UNTRUSTED"[..1] == " " && " UNTRUSTED"[1..] == "UNTRUSTED";
    assert Spells(c, "UNTRUSTED", "UNTRUSTED");
  }

  lemma ShortNoMatch(c: Classes, t: string)
    requires |t| <= 3
    ensures Match(c, t).None?
  {
  }

  lemma {:induction false} DashlessIsKept(c: Classes, t: string, n: nat)
    requires n <= |t| && forall k | 0 <= k < n :: t[k] != '-'
    ensures n <= |Defuse(c, t)| && forall k | 0 <= k < n :: Defuse(c, t)[k] == t[k]
    decreases |t|
  {
    if n > 0 {
      Dashes(t);
      DefuseStep(c, t);
      assert Piece(c, t) == ([t[0]], t[1..]);
      hide Defuse, Piece;
      var d, after := Defuse(c, t), Defuse(c, t[1..]);
      assert forall k | 0 <= k < n - 1 :: t[1..][k] == t[k + 1];
      DashlessIsKept(c, t[1..], n - 1);
      forall k | 0 < k < n ensures d[k] == t[k] {
        assert d[k] == after[k - 1] && t[1..][k - 1] == t[k];
      }
    }
  }

  lemma NoDashIsKept(c: Classes, t: string, n: nat)
    requires n <= |t| && NoDash(t[..n])
    ensures n <= |Defuse(c, t)| && Defuse(c, t)[..n] == t[..n]
  {
    hide Defuse;
    assert forall k | 0 <= k < n :: t[k] == t[..n][k];
    DashlessIsKept(c, t, n);
  }

  lemma DefuseKeepsTail(c: Classes, t: string)
    requires Sane(c)
    ensures MatchTail(c, Defuse(c, t)).Some? <==> MatchTail(c, t).Some?
  {
    var d := Defuse(c, t);
    if MatchTail(c, d).Some? {
      TailSound(c, d);
      var n := MatchTail(c, d).value;
      TailNoBracket(c, d[..n]);
      UnchangedUpToBracket(c, t, n);
      TailComplete(c, t, n);
    }
    if MatchTail(c, t).Some? {
      TailSound(c, t);
      var n := MatchTail(c, t).value;
      TailChars(c, t[..n]);
      NoDashIsKept(c, t, n);
      TailComplete(c, d, n);
    }
  }

  lemma TailAfterLine(c: Classes, d: string)
    requires Sane(c)
    ensures MatchTail(c, "\n" + d).Some? <==> MatchTail(c, d).Some?
  {
    var t := "\n" + d;
    assert t[1..] == d;
    assert Spaces(c, t) == 1 + Spaces(c, d);
    assert t[1 + Spaces(c, d)..] == d[Spaces(c, d)..];
    hide MatchWord;
  }

  /** Dashes and then a line break, whatever follows. */
  lemma DashesFirst(c: Classes, line: string, footer: string)
    requires Sane(c) && "---" <= footer
    ensures Match(c, "---" + (line + "\n" + footer)).Some? <==> MatchTail(c, line).Some?
  {
    var rest := line + "\n" + footer;
    assert ("---" + rest)[3..] == rest && "---" <= "---" + rest;
    Dashes(footer);
    hide MatchTail;
    TailStopsAtLine(c, line, footer);
  }

  lemma Behind(h: string, p: string, d: string, n: string, rest: string)
    ensures h + p + d + n + rest == h + (p + d + n + rest)
  {
  }

  lemma Regroup(p: string, q: string, d: string, n: string, rest: string)
    ensures p + q + d + n + rest == p + ((q + d) + n + rest)
  {
  }

  /** The header's own closing dashes, before the content. */
  lemma HeaderDashes(c: Classes, content: string, footer: string)
    requires Sane(c) && "---" <= footer
    ensures Match(c, "---\n" + Defuse(c, content) + "\n" + footer).Some? <==> MatchTail(c, content).Some?
  {
    var d := Defuse(c, content);
    assert "---\n" == "---" + "\n";
    hide *;
    Regroup("---", "\n", d, "\n", footer);
    DashesFirst(c, "\n" + d, footer);
    TailAfterLine(c, d);
    DefuseKeepsTail(c, content);
  }

  lemma TitleNoDash(word: string, name: string, tag: string)
    requires NoDash(word) && NoDash(name) && NoDash(tag)
    ensures NoDash(Opening(word) + (" " + Title(name, tag)))
  {
  }

  /** Between its first dashes and what follows `title`, nothing starts a marker. */
  lemma OnlyAtStart(c: Classes, title: string, rest: string, i: nat)
    requires NoDash(title) && title != [] && 0 < i < |title| + 3
    ensures Match(c, ("---" + title + rest)[i..]).None?
  {
    var t := "---" + title + rest;
    hide Match;
    assert forall k | 3 <= k < |title| + 3 :: t[k] == title[k - 3];
    if Match(c, t[i..]).Some? { StartsAtDashes(c, t, i); }
  }

  lemma HeaderMarkers(c: Classes, name: string, tag: string, rest: string, i: nat)
    requires Sane(c) && NoDash(name) && NoDash(tag) && i < |Header(name, tag)|
    ensures Match(c, (Header(name, tag) + rest)[i..]).Some? <==> i == 0
  {
    var t := Header(name, tag) + rest;
    var title := Opening("BEGIN") + (" " + Title(name, tag));
    assert t == "---" + title + rest;
    TitleNoDash("BEGIN", name, tag);
    hide Sane, Match, Header, Title, Opening;
    if i == 0 {
      assert t[0..] == "---" + Opening("BEGIN") + (" " + Title(name, tag) + rest);
      OpensMarker(c, "BEGIN", " " + Title(name, tag) + rest);
    } else {
      OnlyAtStart(c, title, rest, i);
    }
  }

  lemma FooterMarkers(c: Classes, name: string, tag: string, i: nat)
    requires Sane(c) && NoDash(name) && NoDash(tag) && i <= |Footer(name, tag)|
    ensures Match(c, Footer(name, tag)[i..]).Some? <==> i == 0
  {
    var t := Footer(name, tag);
    var title := Opening("END") + (" " + Title(name, tag));
    assert t == "---" + title + "---";
    TitleNoDash("END", name, tag);
    hide Sane, Match, Footer, Title, Opening;
    if i == 0 {
      assert t[0..] == "---" + Opening("END") + (" " + Title(name, tag) + "---");
      OpensMarker(c, "END", " " + Title(name, tag) + "---");
    } else if i + 3 < |t| {
      OnlyAtStart(c, title, "---", i);
    } else {
      ShortNoMatch(c, t[i..]);
    }
  }

  /** Where the markers of a fenced block are, for every content: its header, its
      footer, and -- exactly when the content begins like the rest of a marker --
      the header's closing dashes, which the content then completes. */
  lemma MarkersOfBlock(c: Classes, name: string, tag: string, content: string, i: nat)
    requires Sane(c) && NoDash(name) && NoDash(tag) && i <= |Fence(c, name, tag, content)|
    ensures var block := Fence(c, name, tag, content);
            var closing := |Header(name, tag)|;
            var footer := |block| - |Footer(name, tag)|;
            Match(c, block[i..]).Some? <==> i == 0 || i == footer || (i == closing && MatchTail(c, content).Some?)
  {
    var h, d, f := Header(name, tag), Defuse(c, content), Footer(name, tag);
    var block := Fence(c, name, tag, content);
    hide Header, Footer, Defuse, MatchTail, Match;
    Behind(h, "---\n", d, "\n", f);
    assert "---" <= f && h != [] by { FooterStarts(name, tag); }
    if i < |h| {
      HeaderMarkers(c, name, tag, "---\n" + d + "\n" + f, i);
    } else if i == |h| {
      assert block[i..] == "---\n" + d + "\n" + f;
      HeaderDashes(c, content, f);
    } else if i < |h| + 4 {
      assert block[|h| + 3] == '\n';
      if Match(c, block[i..]).Some? { StartsAtDashes(c, block, i); }
    } else if i < |h| + 4 + |d| {
      var j := i - |h| - 4;
      assert block[i..] == d[j..] + "\n" + f;
      DefusingLeavesNoMarker(c, content, j);
      MatchStopsAtLine(c, d[j..], f);
    } else if i == |h| + 4 + |d| {
      assert block[i] == '\n';
      if Match(c, block[i..]).Some? { StartsAtDashes(c, block, i); }
    } else {
      var j := i - |h| - 5 - |d|;
      assert block[i..] == f[j..];
      FooterMarkers(c, name, tag, j);
    }
  }

  /** Such a content: the block then holds a third marker, inside its own header line. */
  lemma ContentCompletesHeader(c: Classes, name: string, tag: string, more: string)
    requires Sane(c) && NoDash(name) && NoDash(tag)
    ensures var content := "END UNTRUSTED" + more;
            Match(c, Fence(c, name, tag, content)[|Header(name, tag)|..]).Some?
  {
    var content := "END UNTRUSTED" + more;
    assert "END UNTRUSTED"[..3] == "END" && "END UNTRUSTED"[3..] == " UNTRUSTED";
    assert " UNTRUSTED"[..1] == " " && " UNTRUSTED"[1..] == "UNTRUSTED";
    assert IsGap(c, " UNTRUSTED");
    assert Spells(c, "END", "END");
    assert IsWord(c, "END UNTRUSTED");
    assert "END UNTRUSTED"[..0] == "" && "END UNTRUSTED"[0..] == "END UNTRUSTED";
    assert IsTail(c, "END UNTRUSTED");
    assert content[..13] == "END UNTRUSTED";
    hide Sane, IsTail, MatchTail, Fence;
    TailComplete(c, content, 13);
    MarkersOfBlock(c, name, tag, content, |Header(name, tag)|);
  }

  lemma FooterStarts(name: string, tag: string)
    ensures "---" <= Footer(name, tag) && Header(name, tag) != []
  {
  }
}
