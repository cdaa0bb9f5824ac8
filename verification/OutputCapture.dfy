/** The agent's bounded capture of a process stream
    (src/SquashRmm.Agent/OutputCapture.cs). */
module OutputCapture {
  import opened Wrappers
  import opened Unicode

  // ---------- what it promises ----------

  /** How much to keep: whole characters for as long as their UTF-8 fits. */
  function Cut(s: seq<Unit>, limit: int): (k: nat)
    ensures k <= |s|
    decreases |s|
  {
    if s == [] then 0
    else
      var w, size := Width(s), Size(s[..Width(s)]);
      if size > limit then 0 else w + Cut(s[w..], limit - size)
  }

  lemma FirstCharacter(s: seq<Unit>)
    requires s != []
    ensures var w := Width(s);
            && Whole(s[..w], s[w..]) && Scalars(s[..w]) == [First(s)] && Size(s) == Size(s[..w]) + Size(s[w..])
            && Size(s[..w]) == |EncodeOne(First(s))|
  {
    var w := Width(s);
    assert Width(s[..w]) == w && First(s[..w]) == First(s) && s[..w][w..] == [];
    assert Encode([First(s)]) == EncodeOne(First(s));
    assert s == s[..w] + s[w..];
    SizeJoin(s[..w], s[w..]);
  }

  /** A cut inside a character is not whole, so a whole prefix takes all of it. */
  lemma WholePrefixTakesFirst(s: seq<Unit>, k: nat)
    requires 0 < k <= |s| && Whole(s[..k], s[k..])
    ensures Width(s) <= k && Whole(s[Width(s)..k], s[k..])
    ensures Size(s[..k]) == Size(s[..Width(s)]) + Size(s[Width(s)..k])
  {
    var w := Width(s);
    assert s[..k] == s[..w] + s[w..k];
    assert w < k ==> s[w..k][k - w - 1] == s[..k][k - 1];
    FirstCharacter(s[..k]);
    assert s[..k][..w] == s[..w] && s[..k][w..] == s[w..k];
  }

  lemma {:induction false} CutFits(s: seq<Unit>, limit: nat)
    ensures var c := Cut(s, limit); Whole(s[..c], s[c..]) && Size(s[..c]) <= limit
    decreases |s|
  {
    var c := Cut(s, limit);
    if c == 0 {
      assert s[..0] == [];
    } else {
      var w := Width(s);
      CutFits(s[w..], limit - Size(s[..w]));
      hide Size, Width, Whole, Cut;
      TakeOneMore(s, c - w);
    }
  }

  /** The first character and `n` more units. */
  lemma TakeOneMore(s: seq<Unit>, n: nat)
    requires s != [] && Width(s) + n <= |s| && Whole(s[Width(s)..][..n], s[Width(s)..][n..])
    ensures var w := Width(s);
            Whole(s[..w + n], s[w + n..]) && Size(s[..w + n]) == Size(s[..w]) + Size(s[w..][..n])
  {
    var w := Width(s);
    assert s[..w + n] == s[..w] + s[w..][..n] && s[w..][n..] == s[w + n..];
    assert n > 0 ==> s[..w + n][w + n - 1] == s[w..][..n][n - 1];
    assert n == 0 ==> s[..w][w - 1] == s[w - 1];
    SizeJoin(s[..w], s[w..][..n]);
  }

  lemma {:induction false} CutIsLongest(s: seq<Unit>, limit: int, k: nat)
    requires k <= |s| && Whole(s[..k], s[k..]) && Size(s[..k]) <= limit
    ensures k <= Cut(s, limit)
    decreases |s|
  {
    if k > 0 {
      var w := Width(s);
      WholePrefixTakesFirst(s, k);
      assert s[w..][..k - w] == s[w..k] && s[w..][k - w..] == s[k..];
      CutIsLongest(s[w..], limit - Size(s[..w]), k - w);
    }
  }

  /** Exactly the longest prefix that splits no character and fits in UTF-8. */
  lemma CutIsTheLongest(s: seq<Unit>, limit: nat, k: nat)
    requires k <= |s|
    ensures k == Cut(s, limit) <==>
      && Whole(s[..k], s[k..]) && Size(s[..k]) <= limit
      && (forall n | k < n <= |s| :: !(Whole(s[..n], s[n..]) && Size(s[..n]) <= limit))
  {
    hide Size, Cut, Whole;
    CutFits(s, limit);
    forall n | 0 <= n <= |s| && Whole(s[..n], s[n..]) && Size(s[..n]) <= limit ensures n <= Cut(s, limit) {
      CutIsLongest(s, limit, n);
    }
  }

  /** Nothing is discarded exactly when everything fits. */
  lemma CutKeepsAll(s: seq<Unit>, limit: nat)
    ensures Cut(s, limit) == |s| <==> Size(s) <= limit
  {
    hide Size, Cut;
    assert s[..|s|] == s && s[|s|..] == [];
    CutFits(s, limit);
    if Size(s) <= limit { CutIsLongest(s, limit, |s|); }
  }

  /** Text that fits is kept, and the budget left goes to what follows. */
  lemma {:induction false} CutAfter(done: seq<Unit>, rest: seq<Unit>, limit: int)
    requires Whole(done, rest) && Size(done) <= limit
    ensures Cut(done + rest, limit) == |done| + Cut(rest, limit - Size(done))
    decreases |done|
  {
    if done == [] {
      assert done + rest == rest;
    } else {
      hide Size, Width, Whole, Cut;
      var w := Width(done);
      FirstCharacter(done);
      FirstOfJoin(done, rest);
      CutStep(done + rest, limit);
      CutAfter(done[w..], rest, limit - Size(done[..w]));
    }
  }

  lemma FirstOfJoin(done: seq<Unit>, rest: seq<Unit>)
    requires done != [] && Whole(done, rest)
    ensures var w := Width(done);
            && Width(done + rest) == w && Whole(done[w..], rest)
            && (done + rest)[..w] == done[..w] && (done + rest)[w..] == done[w..] + rest
  {
  }

  lemma CutStep(s: seq<Unit>, limit: int)
    requires s != []
    ensures var w := Width(s);
            Cut(s, limit) == if Size(s[..w]) > limit then 0 else w + Cut(s[w..], limit - Size(s[..w]))
  {
    hide Size, Width;
  }

  // ---------- the streaming form ----------

  const MAX_INT := 0x7FFF_FFFF

  /** C# int addition. */
  function Add(a: int, b: int): int {
    if a + b > MAX_INT then a + b - 0x1_0000_0000 else a + b
  }

  function Pending(high: Option<Unit>): seq<Unit> {
    if high.Some? then [high.value] else []
  }

  function Utf8Length(c: Unit): int {
    if c < 0x80 then 1 else if c < 0x800 then 2 else 3
  }

  lemma LoneSize(c: Unit)
    ensures Size([c]) == (if IsHigh(c) then 3 else Utf8Length(c)) && Width([c]) == 1
  {
    FirstCharacter([c]);
    assert [c][..1] == [c];
  }

  lemma PairSize(high: Unit, low: Unit)
    requires IsHigh(high) && IsLow(low)
    ensures Size([high, low]) == 4 && Width([high, low]) == 2 && [high, low][..2] == [high, low]
  {
    FirstCharacter([high, low]);
    assert [high, low][..2] == [high, low];
  }

  class Utf8Budget {
    const maxBytes: int
    var text: seq<Unit>
    var bytes: int
    var pendingHigh: Option<Unit>
    var truncated: bool
    ghost var fed: seq<Unit>          // everything appended so far

    /** The server dispatches no limit above 4 MiB, so the 32-bit sums are exact. */
    ghost predicate Valid()
      reads this
    {
      && 0 <= maxBytes <= MAX_INT - 4
      && bytes == Size(text) <= maxBytes
      && (pendingHigh.Some? ==> IsHigh(pendingHigh.value))
      && if truncated then pendingHigh.None? && Full(text, fed, maxBytes)
         else fed == text + Pending(pendingHigh)
              && (text == [] || !IsHigh(text[|text| - 1]) || pendingHigh.Some?)
    }

    constructor (maxBytes: int)
      requires 0 <= maxBytes <= MAX_INT - 4
      ensures Valid() && fed == [] && this.maxBytes == maxBytes
    {
      this.maxBytes := maxBytes;
      text, bytes, pendingHigh, truncated, fed := [], 0, None, false, [];
    }

    /** Keeps one character of `size` bytes if it fits, and says so if not. */
    method Keep(size: int, first: Unit, second: Option<Unit>)
      requires 0 <= bytes <= maxBytes <= MAX_INT - 4 && 0 <= size <= 4
      modifies this`text, this`bytes, this`truncated
      ensures if old(bytes) + size > maxBytes
              then truncated && text == old(text) && bytes == old(bytes)
              else truncated == old(truncated) && text == old(text) + [first] + Pending(second)
                   && bytes == old(bytes) + size
    {
      if Add(bytes, size) > maxBytes {
        truncated := true;
        return;
      }
      bytes := Add(bytes, size);
      text := text + [first];
      if second.Some? { text := text + [second.value]; }
    }

    /** The unit after a high surrogate: it completes a pair, or the surrogate
        stands alone and `c` is still to be taken. */
    method Resolve(c: Unit) returns (used: bool)
      requires Valid() && !truncated && pendingHigh.Some?
      modifies this
      ensures used ==> Valid() && fed == old(fed) + [c]
      ensures !used ==> !truncated && pendingHigh.None? && fed == old(fed) == text && bytes == Size(text) <= maxBytes
      ensures !used ==> !IsLow(c)
    {
      ghost var before := text;
      var high := pendingHigh.value;
      pendingHigh := None;
      used := IsLow(c);
      hide Size, Width, Scalars, Encode, Full;
      if used {
        PairSize(high, c);
        Grow(text, [high, c]);
        Keep(4, high, Some(c));
        fed := fed + [c];
        assert before + [high] + [c] == before + [high, c];
        if truncated {
          Discards(before, [high, c], maxBytes);
        } else {
          assert text == before + [high, c] == fed && text[|text| - 1] == c;
        }
      } else {
        LoneSize(high);
        Grow(text, [high]);
        Keep(3, high, None);
        if truncated {
          used := true;
          fed := fed + [c];
          assert before + [high] + [c] == before + [high, c];
          LoneFirst(high, c);
          Discards(before, [high, c], maxBytes);
        } else {
          assert text == before + [high];
        }
      }
    }

    /** One turn of Append's loop. */
    method AppendOne(c: Unit)
      requires Valid() && !truncated
      modifies this
      ensures Valid() && fed == old(fed) + [c]
    {
      var used := false;
      if pendingHigh.Some? { used := Resolve(c); }
      if used { return; }
      ghost var before := text;
      hide Size, Width, Scalars, Encode, Full;
      fed := fed + [c];
      if IsHigh(c) {
        pendingHigh := Some(c);
      } else {
        LoneSize(c);
        Grow(text, [c]);
        Keep(Utf8Length(c), c, None);
        if truncated {
          assert [c][..1] == [c];
          Discards(before, [c], maxBytes);
        } else {
          assert text == before + [c] == fed;
        }
      }
    }

    /** Once something was discarded, so is everything after it. */
    ghost method Ignore(more: seq<Unit>)
      requires Valid() && truncated
      modifies this`fed
      ensures Valid() && fed == old(fed) + more
    {
      StaysFull(text, fed, more, maxBytes);
      fed := fed + more;
    }

    method Append(chunk: seq<Unit>)
      requires Valid()
      modifies this
      ensures Valid() && fed == old(fed) + chunk
    {
      hide *;
      for k := 0 to |chunk|
        invariant Valid() && fed == old(fed) + chunk[..k]
      {
        if truncated {
          Ignore(chunk[k..]);
          assert old(fed) + chunk[..k] + chunk[k..] == old(fed) + chunk;
          return;
        }
        AppendOne(chunk[k]);
        assert chunk[..k + 1] == chunk[..k] + [chunk[k]];
      }
      assert chunk[..|chunk|] == chunk;
    }

    method Finish()
      requires Valid()
      modifies this
      ensures fed == old(fed) && maxBytes >= 0
      ensures text == fed[..Cut(fed, maxBytes)]
      ensures truncated <==> Cut(fed, maxBytes) < |fed|
    {
      hide Size, Width;
      ghost var before, pending := text, Pending(pendingHigh);
      if pendingHigh.Some? && !truncated {
        LoneSize(pendingHigh.value);
        Grow(text, pending);
        Keep(3, pendingHigh.value, None);
      }
      pendingHigh := None;
      if truncated {
        assert fed == text + fed[|text|..];
        assert !old(truncated) ==> fed[|text|..] == pending && pending[..1] == pending;
        OverflowIsCut(text, fed[|text|..], maxBytes);
      } else {
        assert text == fed && fed[..|fed|] == fed;
        CutKeepsAll(fed, maxBytes);
      }
    }
  }

  // ---------- why one turn is right ----------

  lemma LoneFirst(high: Unit, c: Unit)
    requires IsHigh(high) && !IsLow(c)
    ensures Width([high, c]) == 1 && [high, c][..1] == [high]
  {
  }

  /** Text that does not end inside a character grows by what starts one. */
  lemma Grow(text: seq<Unit>, more: seq<Unit>)
    requires Whole(text, more)
    ensures Size(text + more) == Size(text) + Size(more)
  {
    SizeJoin(text, more);
  }

  ghost predicate Overflows(text: seq<Unit>, rest: seq<Unit>, limit: int) {
    && rest != [] && Whole(text, rest)
    && Size(text) <= limit < Size(text) + Size(rest[..Width(rest)])
  }

  /** No later unit can make its first character any other. */
  ghost predicate Complete(rest: seq<Unit>) {
    rest != [] && (IsHigh(rest[0]) ==> |rest| > 1)
  }

  /** `text` is kept, and the character after it, already complete, does not fit. */
  ghost predicate Full(text: seq<Unit>, fed: seq<Unit>, limit: int) {
    && |text| < |fed| && text == fed[..|text|]
    && Overflows(text, fed[|text|..], limit) && Complete(fed[|text|..])
  }

  lemma Discards(text: seq<Unit>, rest: seq<Unit>, limit: int)
    requires Complete(rest) && Whole(text, rest)
    requires Size(text) <= limit < Size(text) + Size(rest[..Width(rest)])
    ensures Full(text, text + rest, limit)
  {
    assert (text + rest)[..|text|] == text && (text + rest)[|text|..] == rest;
  }

  lemma StaysFull(text: seq<Unit>, fed: seq<Unit>, more: seq<Unit>, limit: int)
    requires Full(text, fed, limit)
    ensures Full(text, fed + more, limit)
  {
    var rest := fed[|text|..];
    assert (fed + more)[|text|..] == rest + more && (fed + more)[..|text|] == fed[..|text|];
    assert Width(rest + more) == Width(rest);
    assert (rest + more)[..Width(rest)] == rest[..Width(rest)];
  }

  lemma OverflowIsCut(text: seq<Unit>, rest: seq<Unit>, limit: int)
    requires Overflows(text, rest, limit)
    ensures Cut(text + rest, limit) == |text|
  {
    CutAfter(text, rest, limit);
  }

  // ---------- reading a stream ----------

  datatype Read = Chars(units: seq<Unit>) | Cancelled

  /** What arrives before end of stream (an empty read) or cancellation. */
  function Delivered(arrivals: seq<Read>): seq<Unit> {
    if arrivals == [] || arrivals[0].Cancelled? || arrivals[0].units == [] then []
    else arrivals[0].units + Delivered(arrivals[1..])
  }

  /** The capture is the longest whole-character prefix of what was delivered,
      however the reads split it, and the flag is set exactly when something was
      discarded. The stream is drained either way. */
  method ReadAsync(arrivals: seq<Read>, maxBytes: int) returns (text: seq<Unit>, truncated: bool)
    requires 0 <= maxBytes <= MAX_INT - 4
    ensures var all := Delivered(arrivals);
            text == all[..Cut(all, maxBytes)] && (truncated <==> Cut(all, maxBytes) < |all|)
  {
    var kept := new Utf8Budget(maxBytes);
    hide *;
    var k := 0;
    while k < |arrivals|
      invariant k <= |arrivals|
      invariant kept.Valid() && kept.maxBytes == maxBytes && fresh(kept)
      invariant Delivered(arrivals) == kept.fed + Delivered(arrivals[k..])
    {
      DeliveredStep(arrivals, k);
      if arrivals[k].Cancelled? || arrivals[k].units == [] { break; }
      Regroup(kept.fed, arrivals[k].units, Delivered(arrivals[k + 1..]));
      kept.Append(arrivals[k].units);
      k := k + 1;
    }
    if k == |arrivals| { NothingDelivered(); }
    assert Delivered(arrivals[k..]) == [] by { if k == |arrivals| { assert arrivals[k..] == []; } }
    assert kept.fed + [] == kept.fed;
    kept.Finish();
    text, truncated := kept.text, kept.truncated;
  }

  lemma Regroup(a: seq<Unit>, b: seq<Unit>, c: seq<Unit>)
    ensures a + (b + c) == (a + b) + c
  {
  }

  lemma NothingDelivered()
    ensures Delivered([]) == []
  {
  }

  lemma DeliveredStep(arrivals: seq<Read>, k: nat)
    requires k < |arrivals|
    ensures Delivered(arrivals[k..]) ==
            if arrivals[k].Cancelled? || arrivals[k].units == [] then []
            else arrivals[k].units + Delivered(arrivals[k + 1..])
  {
    assert arrivals[k..][0] == arrivals[k] && arrivals[k..][1..] == arrivals[k + 1..];
  }
}
