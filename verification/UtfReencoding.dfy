/**
 What reading keeps of a source, well formed or not: writing what was read in the same form again gives back
 exactly the units consumed, unless some UTF-8 code point was not in its shortest form.
 */
module UtfReencoding {
  import opened Prelude
  import opened UtfSpec
  import opened UtfTheorems

  // Where the reader stops.
  function ReadEnd(w: Width, s: seq<u32bits>, pos: nat, remaining: int): (end: nat)
    requires UnitsOk(w, s) && Readable(s, pos, remaining)
    ensures pos <= |s| ==> pos <= end <= |s|
    decreases |s| - pos
  {
    var r := Read(w, s, pos, remaining);
    ReadAdvances(w, s, pos, remaining);
    if Stops(r.code) then pos else ReadEnd(w, s, r.pos, r.remaining)
  }

  // Every code point read took as many units as its encoding has.
  predicate AllShortest(w: Width, s: seq<u32bits>, pos: nat, remaining: int)
    requires UnitsOk(w, s) && Readable(s, pos, remaining)
    decreases |s| - pos
  {
    var r := Read(w, s, pos, remaining);
    ReadAdvances(w, s, pos, remaining);
    Stops(r.code) || (r.pos == pos + |Encode(w, r.code)| && AllShortest(w, s, r.pos, r.remaining))
  }

  // ----- One code point -----

  lemma GatherBack(cp: u32bits, c: u32bits)
    requires cp < 0x4000000 && c < 0x100 && IsContinuation(c)
    ensures Shr6(Gather(cp, c)) == cp && Continuation(Gather(cp, c)) == c
  {
  }

  lemma LimitBound(cp: u32bits, n: nat)
    requires 0 < n && Within(cp, n)
    ensures cp < 0x4000000
  {
  }

  // The continuation bytes read are those the result would be written with.
  lemma {:induction false} FollowBack(s: seq<u32bits>, pos: nat, n: nat, cp: u32bits, remaining: int)
    requires UnitsOk(W8, s) && n <= 5 && Within(cp, n)
    requires if remaining >= 0 then pos + n <= |s| else ZeroAhead(s, pos)
    ensures var r := Follow(s, pos, n, cp, remaining);
      !Stops(r.code) ==> pos + n <= |s| && Shifted(r.code, n) == cp && s[pos..pos + n] == Tail(r.code, n)
    decreases n
  {
    hide Within, Gather, Continuation, Tail, Shr6, IsContinuation, ZeroAhead, Stops;
    var r := Follow(s, pos, n, cp, remaining);
    ZeroAheadStep(s, pos);
    if n == 0 {
      assert s[pos..pos] == Tail(r.code, 0);
    } else if IsContinuation(s[pos]) {
      NotZero(s[pos]);
      LimitBound(cp, n);
      GatherBound(cp, s[pos], n);
      GatherBack(cp, s[pos]);
      FollowBack(s, pos + 1, n - 1, Gather(cp, s[pos]), remaining);
      if !Stops(r.code) {
        TailHead(r.code, n);
        assert s[pos..pos + n] == [s[pos]] + s[pos + 1..pos + 1 + (n - 1)];
        assert Tail(r.code, n) == [Tail(r.code, n)[0]] + Tail(r.code, n)[1..];
      }
    }
  }

  lemma LeadBack(c: u32bits, n: nat)
    requires c < 0x100 && FollowCount(c) == Some(n)
    ensures n <= 5 && LeadMark(n) | Payload(Payload(c, n), n) == c && Payload(c, n) <= LeadMask(n)
    ensures n == 0 ==> c < 0x80
  {
  }

  // No form is shorter than the encoding.
  lemma ShortestTail(cp: u32bits, n: nat)
    requires n <= 5 && Shifted(cp, n) <= LeadMask(n) && (n == 0 ==> cp < 0x80)
    ensures TailLength(cp) <= n
  {
    ShiftedClosed(cp);
  }

  // A byte sequence read: its lead byte announces the continuation bytes, and both give the result.
  lemma Read8Parts(s: seq<u32bits>, pos: nat, remaining: int) returns (n: nat)
    requires UnitsOk(W8, s) && Readable(s, pos, remaining) && !Stops(Read8(s, pos, remaining).code)
    ensures pos < |s| && FollowCount(s[pos]) == Some(n) && s[pos] < 0x100
    ensures var r := Read8(s, pos, remaining);
      r.pos == pos + 1 + n <= |s| && Shifted(r.code, n) == Payload(s[pos], n)
      && s[pos + 1..r.pos] == Tail(r.code, n)
  {
    hide Within, LeadMark, Payload, LeadMask, FollowCount, Tail, Shifted, TailLength, IsContinuation, ZeroAhead;
    ZeroAheadStep(s, pos);
    var c := s[pos];
    LeadBound(c);
    n := FollowCount(c).value;
    FollowBack(s, pos + 1, n, Payload(c, n), Spent(remaining, n + 1));
  }

  lemma TailIsShortest(c: u32bits, n: nat, code: u32bits)
    requires c < 0x100 && FollowCount(c) == Some(n) && Shifted(code, n) == Payload(c, n)
    ensures TailLength(code) <= n
  {
    hide LeadMark, Payload, LeadMask, FollowCount, Shifted, TailLength;
    LeadBack(c, n);
    if n == 0 {
      NoTail(code);
      AsciiPayload(c);
    }
    ShortestTail(code, n);
  }

  // A lead byte and the continuation bytes it announces are an encoding, unless there is a shorter one.
  lemma EncodesBack(c: u32bits, n: nat, code: u32bits)
    requires c < 0x100 && FollowCount(c) == Some(n) && Shifted(code, n) == Payload(c, n)
    ensures |Encode8(code)| <= n + 1
    ensures |Encode8(code)| == n + 1 ==> Encode8(code) == [c] + Tail(code, n)
  {
    hide LeadMark, Payload, LeadMask, FollowCount, Tail, Shifted, TailLength;
    TailIsShortest(c, n, code);
    LeadBack(c, n);
  }

  lemma Read8Back(s: seq<u32bits>, pos: nat, remaining: int)
    requires UnitsOk(W8, s) && Readable(s, pos, remaining) && !Stops(Read8(s, pos, remaining).code)
    ensures var r := Read8(s, pos, remaining);
      && pos <= r.pos <= |s| && |Encode8(r.code)| <= r.pos - pos
      && (r.pos == pos + |Encode8(r.code)| ==> s[pos..r.pos] == Encode8(r.code))
  {
    hide Read8, Stops, Encode8, Payload, FollowCount, Tail, Shifted, UnitsOk, Readable;
    var r := Read8(s, pos, remaining);
    var n := Read8Parts(s, pos, remaining);
    EncodesBack(s[pos], n, r.code);
    assert s[pos..r.pos] == [s[pos]] + s[pos + 1..r.pos];
  }

  lemma NoTail(cp: u32bits)
    ensures Shifted(cp, 0) == cp
  {
  }

  lemma AsciiPayload(c: u32bits)
    requires c < 0x80
    ensures Payload(c, 0) == c
  {
  }

  lemma JoinBack(hi: u32bits, lo: u32bits)
    requires hi <= 0x3FF && lo <= 0x3FF
    ensures High10(Join20(hi, lo)) == hi && Low10(Join20(hi, lo)) == lo
  {
  }

  lemma RaisedBack(x: u32bits)
    requires x <= 0xFFFFF
    ensures Above(Raised(x)) == x && 0x10000 <= Raised(x) <= 0x10FFFF
  {
  }

  lemma PairBack(hi: u32bits, lo: u32bits)
    requires hi <= 0x3FF && lo <= 0x3FF
    ensures Encode16(Raised(Join20(hi, lo))) == [Based(hi, 0xD800), Based(lo, 0xDC00)]
  {
    hide High10, Low10, Join20, Above, Raised, Based;
    JoinBack(hi, lo);
    JoinBound(hi, lo);
    RaisedBack(Join20(hi, lo));
  }

  lemma LeadOffset(c: u32bits) returns (x: u32bits)
    requires 0xD800 <= c <= 0xDBFF
    ensures x <= 0x3FF && Based(x, 0xD800) == c
  {
    x := c - 0xD800;
  }

  lemma TrailOffset(c: u32bits) returns (x: u32bits)
    requires 0xDC00 <= c <= 0xDFFF
    ensures x <= 0x3FF && Based(x, 0xDC00) == c
  {
    x := c - 0xDC00;
  }

  // A pair of surrogates is the pair its value is written with.
  lemma SurrogatesBack(c: u32bits, t: u32bits)
    requires 0xD800 <= c <= 0xDBFF && 0xDC00 <= t <= 0xDFFF
    ensures Encode16(FromSurrogates(c, t)) == [c, t]
  {
    hide Encode16, FromSurrogates, Based, Raised, Join20;
    var hi := LeadOffset(c);
    var lo := TrailOffset(t);
    JoinSurrogates(hi, lo);
    PairBack(hi, lo);
  }

  lemma Read16Back(s: seq<u32bits>, pos: nat, remaining: int)
    requires UnitsOk(W16, s) && Readable(s, pos, remaining)
    ensures var r := Read16(s, pos, remaining);
      !Stops(r.code) ==> pos <= r.pos <= |s| && s[pos..r.pos] == Encode16(r.code)
  {
    hide FromSurrogates, LeadSurrogate, TrailSurrogate, Encode16;
    ZeroAheadStep(s, pos);
    var r := Read16(s, pos, remaining);
    if !Stops(r.code) {
      if 0xD800 <= s[pos] <= 0xDBFF {
        ZeroAheadStep(s, pos + 1);
        SurrogatesBack(s[pos], s[pos + 1]);
        assert s[pos..pos + 2] == [s[pos], s[pos + 1]];
      } else {
        BasicPlane(s[pos]);
        assert s[pos..pos + 1] == [s[pos]];
      }
    }
  }

  lemma BasicPlane(c: u32bits)
    requires c < 0x10000
    ensures Encode16(c) == [c]
  {
  }

  // The units of one code point read are its encoding exactly if they are no more.
  lemma ReadBack(w: Width, s: seq<u32bits>, pos: nat, remaining: int)
    requires UnitsOk(w, s) && Readable(s, pos, remaining)
    ensures var r := Read(w, s, pos, remaining);
      !Stops(r.code) ==>
        && pos <= r.pos <= |s| && |Encode(w, r.code)| <= r.pos - pos
        && (r.pos == pos + |Encode(w, r.code)| <==> s[pos..r.pos] == Encode(w, r.code))
        && (w != W8 ==> r.pos == pos + |Encode(w, r.code)|)
  {
    hide Encode8, Encode16, Read8, Read16;
    var r := Read(w, s, pos, remaining);
    match w {
      case W8 =>
        if !Stops(r.code) {
          Read8Back(s, pos, remaining);
        }
      case W16 => Read16Back(s, pos, remaining);
      case W32 =>
        ZeroAheadStep(s, pos);
        assert !Stops(r.code) ==> s[pos..pos + 1] == [s[pos]];
    }
  }

  // ----- All of them -----

  lemma {:induction false} NoLongForms(w: Width, s: seq<u32bits>, pos: nat, remaining: int)
    requires UnitsOk(w, s) && Readable(s, pos, remaining) && w != W8
    ensures AllShortest(w, s, pos, remaining)
    decreases |s| - pos
  {
    hide Read, Encode, UnitsOk, Readable, Stops;
    var r := Read(w, s, pos, remaining);
    ReadAdvances(w, s, pos, remaining);
    ReadBack(w, s, pos, remaining);
    if !Stops(r.code) {
      NoLongForms(w, s, r.pos, r.remaining);
    }
  }

  lemma {:induction false} NeverLonger(w: Width, s: seq<u32bits>, pos: nat, remaining: int)
    requires UnitsOk(w, s) && Readable(s, pos, remaining) && pos <= |s|
    ensures |EncodeAll(w, ReadAll(w, s, pos, remaining))| <= ReadEnd(w, s, pos, remaining) - pos
    ensures AllShortest(w, s, pos, remaining) <==>
      s[pos..ReadEnd(w, s, pos, remaining)] == EncodeAll(w, ReadAll(w, s, pos, remaining))
    decreases |s| - pos
  {
    hide Read, Encode, UnitsOk, Readable, Stops;
    var r := Read(w, s, pos, remaining);
    ReadAdvances(w, s, pos, remaining);
    ReadBack(w, s, pos, remaining);
    if !Stops(r.code) {
      NeverLonger(w, s, r.pos, r.remaining);
      var end := ReadEnd(w, s, r.pos, r.remaining);
      var cps := ReadAll(w, s, r.pos, r.remaining);
      var all := [r.code] + cps;
      assert all[0] == r.code && all[1..] == cps;
      PartsEqual(s[pos..r.pos], s[r.pos..end], Encode(w, r.code), EncodeAll(w, cps));
      assert s[pos..end] == s[pos..r.pos] + s[r.pos..end];
    }
  }

  lemma PartsEqual<T>(a: seq<T>, b: seq<T>, x: seq<T>, y: seq<T>)
    requires |x| <= |a| && |y| <= |b|
    ensures a + b == x + y <==> a == x && b == y
  {
    if a + b == x + y {
      assert |a + b| == |x + y|;
      assert a == (a + b)[..|a|] && x == (x + y)[..|x|];
      assert b == (a + b)[|a|..] && y == (x + y)[|x|..];
    }
  }

  // From any source, counted or zero-terminated: what was read, written in the same form, is what was consumed,
  // always for UTF-16 and UTF-32, and for UTF-8 if and only if every code point was in its shortest form.
  lemma ReencodedIffShortest(w: Width, s: seq<u32bits>, remaining: int)
    requires UnitsOk(w, s) && Readable(s, 0, remaining)
    ensures s[..ReadEnd(w, s, 0, remaining)] == EncodeAll(w, ReadAll(w, s, 0, remaining)) <==>
      (w == W8 ==> AllShortest(w, s, 0, remaining))
  {
    NeverLonger(w, s, 0, remaining);
    assert s[..ReadEnd(w, s, 0, remaining)] == s[0..ReadEnd(w, s, 0, remaining)];
    if w != W8 {
      NoLongForms(w, s, 0, remaining);
    }
  }
}
