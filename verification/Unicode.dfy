/** UTF-16 as .NET holds it, code points as Python holds them, and UTF-8 as
    section 3 of RFC 3629 defines it. */
module Unicode {
  import opened Wrappers

  type Unit = u: int | 0 <= u < 0x1_0000        // a .NET char
  type Scalar = c: int | 0 <= c < 0x11_0000 && !IsSurrogate(c)
  type CodePoint = c: int | 0 <= c < 0x11_0000  // a Python character
  type Byte = b: int | 0 <= b < 0x100

  const REPLACEMENT: Scalar := 0xFFFD

  predicate IsHigh(u: int) { 0xD800 <= u <= 0xDBFF }

  predicate IsLow(u: int) { 0xDC00 <= u <= 0xDFFF }

  predicate IsSurrogate(u: int) { 0xD800 <= u <= 0xDFFF }

  // ---------- UTF-16 ----------

  /** A pair is one character; any other unit stands alone. */
  function Width(s: seq<Unit>): (w: nat)
    requires s != []
    ensures 1 <= w <= |s|
  {
    if IsHigh(s[0]) && |s| > 1 && IsLow(s[1]) then 2 else 1
  }

  /** What the first character becomes when it leaves UTF-16: an unpaired
      surrogate becomes U+FFFD. */
  function First(s: seq<Unit>): Scalar
    requires s != []
  {
    if Width(s) == 2 then 0x1_0000 + (s[0] - 0xD800) * 0x400 + (s[1] - 0xDC00)
    else if IsSurrogate(s[0]) then REPLACEMENT
    else s[0]
  }

  function Scalars(s: seq<Unit>): seq<Scalar> {
    if s == [] then [] else [First(s)] + Scalars(s[Width(s)..])
  }

  /** Cutting between `a` and `b` leaves every character whole. */
  predicate Whole(a: seq<Unit>, b: seq<Unit>) {
    a == [] || b == [] || !(IsHigh(a[|a| - 1]) && IsLow(b[0]))
  }

  lemma {:induction false} ScalarsJoin(a: seq<Unit>, b: seq<Unit>)
    requires Whole(a, b)
    ensures Scalars(a + b) == Scalars(a) + Scalars(b)
    decreases |a|
  {
    if a == [] {
      assert a + b == b;
    } else {
      var w := Width(a);
      assert Width(a + b) == w && First(a + b) == First(a);
      assert (a + b)[w..] == a[w..] + b;
      ScalarsJoin(a[w..], b);
    }
  }

  // ---------- UTF-8 ----------

  function EncodeOne(c: Scalar): (e: seq<Byte>)
    ensures 1 <= |e| <= 4
  {
    if c < 0x80 then [c]
    else if c < 0x800 then [0xC0 + c / 0x40, 0x80 + c % 0x40]
    else if c < 0x1_0000 then [0xE0 + c / 0x1000, 0x80 + c / 0x40 % 0x40, 0x80 + c % 0x40]
    else [0xF0 + c / 0x4_0000, 0x80 + c / 0x1000 % 0x40, 0x80 + c / 0x40 % 0x40, 0x80 + c % 0x40]
  }

  function Encode(s: seq<Scalar>): seq<Byte> {
    if s == [] then [] else EncodeOne(s[0]) + Encode(s[1..])
  }

  /** The lengths of RFC 3629, and one character of each. */
  lemma KnownEncodings(c: Scalar)
    ensures |EncodeOne(c)| == if c < 0x80 then 1 else if c < 0x800 then 2 else if c < 0x1_0000 then 3 else 4
    ensures c < 0x80 ==> EncodeOne(c) == [c]
    ensures EncodeOne(0xE9) == [0xC3, 0xA9] && EncodeOne(0x20AC) == [0xE2, 0x82, 0xAC]
    ensures EncodeOne(0x1_F600) == [0xF0, 0x9F, 0x98, 0x80]
    ensures Scalars([0xD83D, 0xDE00]) == [0x1_F600] && Scalars([0xD83D]) == [0xFFFD] && Scalars([0xDE00]) == [0xFFFD]
  {
  }

  predicate IsTail(b: Byte) { 0x80 <= b <= 0xBF }

  function Bits(b: int, marker: int): int { b - marker }

  /** The character at the front, if the bytes start with a well-formed sequence. */
  function DecodeOne(b: seq<Byte>): (r: Option<(Scalar, nat)>)
    ensures r.Some? ==> 1 <= r.value.1 <= |b|
  {
    if b == [] then None
    else if b[0] < 0x80 then Some((b[0], 1))
    else if 0xC2 <= b[0] <= 0xDF then
      if |b| >= 2 && IsTail(b[1]) then Some((Bits(b[0], 0xC0) * 0x40 + Bits(b[1], 0x80), 2)) else None
    else if 0xE0 <= b[0] <= 0xEF then
      if |b| >= 3 && IsTail(b[1]) && IsTail(b[2]) then
        var c := Bits(b[0], 0xE0) * 0x1000 + Bits(b[1], 0x80) * 0x40 + Bits(b[2], 0x80);
        if c >= 0x800 && !IsSurrogate(c) then Some((c, 3)) else None
      else None
    else if 0xF0 <= b[0] <= 0xF4 then
      if |b| >= 4 && IsTail(b[1]) && IsTail(b[2]) && IsTail(b[3]) then
        var c := Bits(b[0], 0xF0) * 0x4_0000 + Bits(b[1], 0x80) * 0x1000 + Bits(b[2], 0x80) * 0x40 + Bits(b[3], 0x80);
        if 0x1_0000 <= c < 0x11_0000 then Some((c, 4)) else None
      else None
    else None
  }

  /** bytes.decode("utf-8", "ignore"): what does not decode is skipped. */
  function DecodeIgnore(b: seq<Byte>): seq<Scalar> {
    if b == [] then []
    else
      match DecodeOne(b)
      case Some((c, n)) => [c] + DecodeIgnore(b[n..])
      case None => DecodeIgnore(b[1..])
  }

  lemma DecodeEncodedOne(c: Scalar, rest: seq<Byte>)
    ensures DecodeOne(EncodeOne(c) + rest) == Some((c, |EncodeOne(c)|))
  {
    var e := EncodeOne(c);
    assert forall k | 0 <= k < |e| :: (e + rest)[k] == e[k];
    SixBits(c);
    SixBits(c / 0x40);
    SixBits(c / 0x1000);
    assert c / 0x40 / 0x40 == c / 0x1000 && c / 0x1000 / 0x40 == c / 0x4_0000;
    if c >= 0x1_0000 { FourBytes(c); }
  }

  lemma SixBits(c: nat)
    ensures c == c / 0x40 * 0x40 + c % 0x40 && 0 <= c % 0x40 < 0x40
  {
  }

  lemma FourBytes(c: nat)
    requires 0x1_0000 <= c < 0x11_0000
    ensures 0 <= c / 0x4_0000 <= 4
    ensures c == c / 0x4_0000 * 0x4_0000 + c / 0x1000 % 0x40 * 0x1000 + c / 0x40 % 0x40 * 0x40 + c % 0x40
  {
    var x, y := c / 0x40, c / 0x1000;
    assert y == x / 0x40 && c / 0x4_0000 == y / 0x40;
    SixBits(c);
    SixBits(x);
    SixBits(y);
  }

  /** The bytes of a character that was cut short decode to nothing. */
  lemma CutCharacterVanishes(c: Scalar, n: nat)
    requires n < |EncodeOne(c)|
    ensures DecodeIgnore(EncodeOne(c)[..n]) == []
  {
    var b := EncodeOne(c)[..n];
    if n > 0 {
      assert DecodeOne(b).None?;
      TailsVanish(b[1..]);
    }
  }

  lemma {:induction false} TailsVanish(b: seq<Byte>)
    requires forall k | 0 <= k < |b| :: IsTail(b[k])
    ensures DecodeIgnore(b) == []
  {
    if b != [] {
      assert IsTail(b[0]);
      TailsVanish(b[1..]);
    }
  }

  lemma DecodeStep(c: Scalar, rest: seq<Byte>)
    ensures DecodeIgnore(EncodeOne(c) + rest) == [c] + DecodeIgnore(rest)
  {
    var e := EncodeOne(c);
    DecodeEncodedOne(c, rest);
    hide EncodeOne, DecodeOne;
    assert (e + rest)[|e|..] == rest;
  }

  /** Decoding undoes encoding, even with something after it. */
  lemma {:induction false} DecodeEncoded(s: seq<Scalar>, rest: seq<Byte>)
    ensures DecodeIgnore(Encode(s) + rest) == s + DecodeIgnore(rest)
  {
    hide EncodeOne, DecodeOne, DecodeIgnore;
    if s == [] {
      assert Encode(s) + rest == rest;
    } else {
      assert Encode(s) + rest == EncodeOne(s[0]) + (Encode(s[1..]) + rest);
      DecodeStep(s[0], Encode(s[1..]) + rest);
      DecodeEncoded(s[1..], rest);
    }
  }

  lemma {:induction false} EncodeJoin(a: seq<Scalar>, b: seq<Scalar>)
    ensures Encode(a + b) == Encode(a) + Encode(b)
  {
    if a == [] {
      assert a + b == b;
    } else {
      assert (a + b)[1..] == a[1..] + b;
      EncodeJoin(a[1..], b);
    }
  }

  /** The UTF-8 length of UTF-16 text, as it will be encoded. */
  function Size(s: seq<Unit>): nat {
    |Encode(Scalars(s))|
  }

  lemma SizeJoin(a: seq<Unit>, b: seq<Unit>)
    requires Whole(a, b)
    ensures Size(a + b) == Size(a) + Size(b)
  {
    ScalarsJoin(a, b);
    EncodeJoin(Scalars(a), Scalars(b));
  }

  // ---------- Python's code points ----------

  /** JSON decoding joins valid pairs and keeps an unpaired surrogate as it is. */
  function Points(s: seq<Unit>): seq<CodePoint> {
    if s == [] then []
    else if Width(s) == 2 then [First(s)] + Points(s[2..])
    else [s[0]] + Points(s[1..])
  }

  /** utf8(value).decode(): every surrogate becomes U+FFFD. */
  function Repair(points: seq<CodePoint>): seq<Scalar> {
    seq(|points|, k requires 0 <= k < |points| => if IsSurrogate(points[k]) then REPLACEMENT else points[k])
  }

  /** What the server keeps of the agent's text is what .NET would have encoded. */
  lemma {:induction false} RepairIsScalars(s: seq<Unit>)
    ensures Repair(Points(s)) == Scalars(s)
    decreases |s|
  {
    if s != [] {
      RepairIsScalars(s[Width(s)..]);
      assert Points(s)[1..] == Points(s[Width(s)..]);
    }
  }
}
