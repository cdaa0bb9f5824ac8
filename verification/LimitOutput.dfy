/** The server's own limit on a result's output (server/protocol.py), and why it
    never disagrees with the agent's. */
module LimitOutput {
  import opened Unicode
  import OutputCapture

  datatype Stream = Stdout | Stderr

  const STREAMS := [Stdout, Stderr]

  /** One stream of a parsed result: parsing left no surrogate in it. */
  datatype Captured = Captured(text: seq<Scalar>, truncated: bool)

  function Limited(c: Captured, maxBytes: nat): Captured {
    var encoded := Encode(c.text);
    if |encoded| > maxBytes then Captured(DecodeIgnore(encoded[..maxBytes]), true) else c
  }

  /** Each stream on its own, and nothing else. */
  method LimitOutput(result: map<Stream, Captured>, maxBytes: nat) returns (limited: map<Stream, Captured>)
    requires Stdout in result && Stderr in result
    ensures limited == map stream | stream in result :: Limited(result[stream], maxBytes)
  {
    limited := result;
    for k := 0 to |STREAMS|
      invariant limited.Keys == result.Keys
      invariant forall j | 0 <= j < |STREAMS| ::
                  limited[STREAMS[j]] == if j < k then Limited(result[STREAMS[j]], maxBytes) else result[STREAMS[j]]
    {
      var stream := STREAMS[k];
      var encoded := Encode(limited[stream].text);
      if |encoded| > maxBytes {
        limited := limited[stream := Captured(DecodeIgnore(encoded[..maxBytes]), true)];
      }
    }
    forall stream | stream in result ensures limited[stream] == Limited(result[stream], maxBytes) {
      assert stream == STREAMS[0] || stream == STREAMS[1];
    }
  }

  // ---------- what a cut at a byte keeps ----------

  /** How many characters fit. */
  function Fit(s: seq<Scalar>, limit: int): (k: nat)
    ensures k <= |s|
  {
    if s == [] || |EncodeOne(s[0])| > limit then 0 else 1 + Fit(s[1..], limit - |EncodeOne(s[0])|)
  }

  /** Cutting the bytes and dropping what no longer decodes keeps exactly the
      characters that fit. */
  lemma {:induction false} CutDecodes(s: seq<Scalar>, limit: nat)
    requires limit <= |Encode(s)|
    ensures DecodeIgnore(Encode(s)[..limit]) == s[..Fit(s, limit)]
  {
    if s == [] {
      assert Encode(s)[..limit] == [];
    } else {
      var e, rest := EncodeOne(s[0]), Encode(s[1..]);
      hide EncodeOne, DecodeOne, DecodeIgnore;
      if |e| > limit {
        assert Encode(s)[..limit] == e[..limit];
        CutCharacterVanishes(s[0], limit);
      } else {
        assert Encode(s)[..limit] == e + rest[..limit - |e|];
        DecodeStep(s[0], rest[..limit - |e|]);
        CutDecodes(s[1..], limit - |e|);
      }
    }
  }

  lemma {:induction false} FitFits(s: seq<Scalar>, limit: nat)
    ensures |Encode(s[..Fit(s, limit)])| <= limit
    ensures Fit(s, limit) == |s| <==> |Encode(s)| <= limit
  {
    if s != [] && |EncodeOne(s[0])| <= limit {
      FitFits(s[1..], limit - |EncodeOne(s[0])|);
      var k := Fit(s, limit);
      assert s[..k][1..] == s[1..][..k - 1];
    }
  }

  lemma FirstScalars(s: seq<Unit>)
    requires s != []
    ensures Scalars(s)[1..] == Scalars(s[Width(s)..]) && Scalars(s)[0] == First(s)
    ensures Size(s[..Width(s)]) == |EncodeOne(First(s))|
  {
    OutputCapture.FirstCharacter(s);
  }

  lemma FitStep(s: seq<Scalar>, limit: int)
    requires s != []
    ensures Fit(s, limit) == if |EncodeOne(s[0])| > limit then 0 else 1 + Fit(s[1..], limit - |EncodeOne(s[0])|)
  {
    hide EncodeOne;
  }

  /** A cut after the first character keeps it and cuts the rest. */
  lemma ScalarsOfCut(s: seq<Unit>, c: nat)
    requires s != [] && Width(s) <= c <= |s|
    ensures Scalars(s[..c]) == [First(s)] + Scalars(s[Width(s)..][..c - Width(s)])
  {
    var w := Width(s);
    assert Width(s[..c]) == w && First(s[..c]) == First(s) && s[..c][w..] == s[w..][..c - w];
  }

  /** The batch cut and the streaming cut keep the same characters. */
  lemma {:induction false} FitIsCut(s: seq<Unit>, limit: int)
    ensures Scalars(s)[..Fit(Scalars(s), limit)] == Scalars(s[..OutputCapture.Cut(s, limit)])
    ensures Fit(Scalars(s), limit) == |Scalars(s)| <==> OutputCapture.Cut(s, limit) == |s|
    decreases |s|
  {
    if s == [] {
      assert s[..0] == [];
    } else {
      var w, c, size := Width(s), OutputCapture.Cut(s, limit), |EncodeOne(First(s))|;
      FirstScalars(s);
      OutputCapture.CutStep(s, limit);
      FitStep(Scalars(s), limit);
      if size <= limit { ScalarsOfCut(s, c); } else { assert Scalars(s[..0]) == []; }
      hide *;
      if size <= limit {
        FitIsCut(s[w..], limit - size);
        var all, rest, k := Scalars(s), Scalars(s[w..]), Fit(Scalars(s[w..]), limit - size);
        assert all == [First(s)] + rest;
        assert all[..1 + k] == [First(s)] + rest[..k];
      }
    }
  }

  // ---------- the agent and the server ----------

  /** For every stream the agent reads and every limit, cutting the repaired text
      on the server gives the repaired capture, with the same flag. */
  lemma CuttersAgree(s: seq<Unit>, maxBytes: nat)
    ensures var cut := OutputCapture.Cut(s, maxBytes);
            Limited(Captured(Scalars(s), false), maxBytes) == Captured(Scalars(s[..cut]), cut < |s|)
  {
    hide Scalars, Encode, DecodeIgnore;
    FitIsCut(s, maxBytes);
    FitFits(Scalars(s), maxBytes);
    if |Encode(Scalars(s))| > maxBytes {
      CutDecodes(Scalars(s), maxBytes);
    } else {
      assert s[..|s|] == s;
    }
  }

  /** So the limit never touches what an honest agent sent, flag included. */
  lemma HonestOutputIsUntouched(s: seq<Unit>, maxBytes: nat)
    ensures var cut := OutputCapture.Cut(s, maxBytes);
            var sent := Captured(Repair(Points(s[..cut])), cut < |s|);
            Limited(sent, maxBytes) == sent
  {
    var cut := OutputCapture.Cut(s, maxBytes);
    RepairIsScalars(s[..cut]);
    OutputCapture.CutFits(s, maxBytes);
  }

  /** The most characters that fit: one more would not. */
  lemma {:induction false} FitIsMost(s: seq<Scalar>, limit: nat)
    requires Fit(s, limit) < |s|
    ensures |Encode(s[..Fit(s, limit) + 1])| > limit
  {
    var k := Fit(s, limit);
    if |EncodeOne(s[0])| <= limit {
      FitIsMost(s[1..], limit - |EncodeOne(s[0])|);
      assert s[..k + 1][1..] == s[1..][..k];
    } else {
      assert s[..1][0] == s[0];
    }
  }

  /** What a limit leaves of a stream: all of it if it fits, and otherwise as many whole
      characters as fit; flagged if anything was dropped here or before. */
  ghost predicate HeldTo(sent: Captured, limit: nat, length: nat, truncated: bool) {
    && length <= |sent.text| && |Encode(sent.text[..length])| <= limit
    && (length < |sent.text| ==> |Encode(sent.text[..length + 1])| > limit)
    && (truncated <==> sent.truncated || length < |sent.text|)
  }

  lemma LimitedIsHeld(c: Captured, limit: nat)
    ensures var l := Limited(c, limit);
            |l.text| <= |c.text| && l.text == c.text[..|l.text|] && HeldTo(c, limit, |l.text|, l.truncated)
  {
    FitFits(c.text, limit);
    if |Encode(c.text)| > limit {
      CutDecodes(c.text, limit);
      FitIsMost(c.text, limit);
    } else {
      assert c.text[..|c.text|] == c.text;
    }
  }

  /** A limited stream is within the limit, a prefix of what was sent, and
      limiting it again changes nothing. */
  lemma LimitedIsWithin(c: Captured, maxBytes: nat)
    ensures var l := Limited(c, maxBytes);
            && |Encode(l.text)| <= maxBytes && l.text <= c.text
            && (l.truncated <==> c.truncated || |Encode(c.text)| > maxBytes)
            && Limited(l, maxBytes) == l
  {
    if |Encode(c.text)| > maxBytes {
      CutDecodes(c.text, maxBytes);
      FitFits(c.text, maxBytes);
    }
  }
}
