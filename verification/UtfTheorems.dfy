/** What transcoding preserves, on whole buffers. */
module UtfTheorems {
  import opened Prelude
  import opened UtfSpec

  // The code points a form can represent: never zero, which terminates; for UTF-16 no surrogate.
  predicate Valid(w: Width, cp: u32bits) {
    && cp != 0
    && match w
       case W8 => cp < 0x80000000
       case W16 => cp <= 0x10FFFF && !(0xD800 <= cp <= 0xDFFF)
       case W32 => !Stops(cp)
  }

  ghost predicate AllValid(w: Width, cps: seq<u32bits>) {
    forall i :: 0 <= i < |cps| ==> Valid(w, cps[i])
  }

  // ----- One code point -----

  lemma EncodeUnits(w: Width, cp: u32bits)
    ensures UnitsOk(w, Encode(w, cp))
    ensures Valid(w, cp) ==> Encode(w, cp) != [] && forall i :: 0 <= i < |Encode(w, cp)| ==> Encode(w, cp)[i] != 0
  {
    if w == W8 {
      Encode8Units(cp);
    }
  }

  lemma LeadUnit(l: u32bits, n: nat)
    ensures LeadMark(n) | Payload(l, n) < 0x100
    ensures n > 0 ==> LeadMark(n) | Payload(l, n) != 0
    ensures n == 0 && 0 < l < 0x80 ==> LeadMark(n) | Payload(l, n) != 0
  {
  }

  lemma ContinuationUnit(b: u32bits)
    ensures 0 < Continuation(b) < 0x100
  {
  }

  lemma Encode8Units(cp: u32bits)
    ensures forall i :: 0 <= i < |Encode8(cp)| ==> Encode8(cp)[i] < 0x100
    ensures 0 < cp < 0x80000000 ==> forall i :: 0 <= i < |Encode8(cp)| ==> Encode8(cp)[i] != 0
  {
    hide Continuation, LeadMark, Payload, Shr6;
    var n := TailLength(cp);
    LeadUnit(Shifted(cp, n), n);
    forall b: u32bits ensures 0 < Continuation(b) < 0x100 {
      ContinuationUnit(b);
    }
  }

  // Putting back six bits that were shifted out.
  lemma GatherShifted(cp: u32bits)
    ensures Gather(Shr6(cp), Continuation(cp)) == cp
    ensures IsContinuation(Continuation(cp))
  {
  }

  lemma ShiftTwice(cp: u32bits)
    ensures Shr6(cp) == cp >> 6
    ensures Shr6(cp >> 6) == cp >> 12
    ensures Shr6(cp >> 12) == cp >> 18
    ensures Shr6(cp >> 18) == cp >> 24
    ensures Shr6(cp >> 24) == cp >> 30
  {
  }

  lemma ShiftedClosed(cp: u32bits)
    ensures Shifted(cp, 0) == cp && Shifted(cp, 1) == cp >> 6 && Shifted(cp, 2) == cp >> 12
    ensures Shifted(cp, 3) == cp >> 18 && Shifted(cp, 4) == cp >> 24 && Shifted(cp, 5) == cp >> 30
  {
    hide Shr6;
    ShiftTwice(cp);
    assert Shifted(cp, 1) == Shr6(Shifted(cp, 0));
    assert Shifted(cp, 2) == Shr6(Shifted(cp, 1));
    assert Shifted(cp, 3) == Shr6(Shifted(cp, 2));
    assert Shifted(cp, 4) == Shr6(Shifted(cp, 3));
    assert Shifted(cp, 5) == Shr6(Shifted(cp, 4));
  }

  lemma LeadOf(l: u32bits, n: nat)
    requires n <= 5 && Payload(l, n) == l && (n == 0 ==> l < 0x80)
    ensures FollowCount(LeadMark(n) | Payload(l, n)) == Some(n)
    ensures Payload(LeadMark(n) | Payload(l, n), n) == l
  {
  }

  lemma LeadBits(cp: u32bits)
    requires cp < 0x80000000
    ensures var n := TailLength(cp);
      var l := Shifted(cp, n);
      n <= 5 && Within(l, n) && Payload(l, n) == l && (n == 0 ==> l < 0x80)
  {
    ShiftedClosed(cp);
  }

  // What the lead byte of the encoding of cp says: the number of continuation bytes and the leading bits.
  lemma LeadByte(cp: u32bits)
    requires 0 < cp < 0x80000000
    ensures var n := TailLength(cp);
      var c := Encode8(cp)[0];
      c != 0 && FollowCount(c) == Some(n) && Payload(c, n) == Shifted(cp, n) && Within(Shifted(cp, n), n)
  {
    hide LeadMark, Payload, FollowCount, Within, Tail, Shr6;
    var n := TailLength(cp);
    LeadBits(cp);
    LeadOf(Shifted(cp, n), n);
    LeadUnit(Shifted(cp, n), n);
  }

  // Reading the tail of an encoding, n groups before its end, gathers exactly the bits of cp.
  lemma {:induction false} FollowTail(s: seq<u32bits>, pos: nat, cp: u32bits, n: nat, remaining: int)
    requires n <= 5 && Within(Shifted(cp, n), n)
    requires pos + n <= |s| && s[pos..pos + n] == Tail(cp, n)
    requires remaining < 0 ==> ZeroAhead(s, pos)
    ensures Follow(s, pos, n, Shifted(cp, n), remaining) == Reading(cp, pos + n, remaining)
    decreases n
  {
    hide Within, Gather, Continuation, Tail, ZeroAhead, Shr6, IsContinuation;
    if n > 0 {
      var b := Shifted(cp, n - 1);
      TailHead(cp, n);
      assert s[pos] == s[pos..pos + n][0];
      assert s[pos + 1..pos + n] == s[pos..pos + n][1..];
      GatherShifted(b);
      ZeroAheadStep(s, pos);
      GatherBound(Shifted(cp, n), s[pos], n);
      NotZero(s[pos]);
      FollowTail(s, pos + 1, cp, n - 1, remaining);
    }
  }

  lemma TailHead(cp: u32bits, n: nat)
    requires n > 0
    ensures Tail(cp, n)[0] == Continuation(Shifted(cp, n - 1)) && Tail(cp, n)[1..] == Tail(cp, n - 1)
    ensures Shifted(cp, n) == Shr6(Shifted(cp, n - 1))
  {
  }

  lemma NotZero(c: u32bits)
    ensures IsContinuation(c) ==> c != 0
  {
  }

  // Reading at the encoding of a valid code point returns it and steps over it.
  lemma ReadEncoded(w: Width, s: seq<u32bits>, pos: nat, cp: u32bits, remaining: int)
    requires UnitsOk(w, s) && Readable(s, pos, remaining) && Valid(w, cp)
    requires pos + |Encode(w, cp)| <= |s| && s[pos..pos + |Encode(w, cp)|] == Encode(w, cp)
    requires remaining >= 0 ==> |Encode(w, cp)| <= remaining
    ensures Read(w, s, pos, remaining)
      == Reading(cp, pos + |Encode(w, cp)|, Spent(remaining, |Encode(w, cp)|))
  {
    var e := Encode(w, cp);
    assert forall i :: 0 <= i < |e| ==> s[pos + i] == e[i];
    match w {
      case W8 => Read8Encoded(s, pos, cp, remaining);
      case W16 => Read16Encoded(s, pos, cp, remaining);
      case W32 =>
    }
  }

  lemma Read8Encoded(s: seq<u32bits>, pos: nat, cp: u32bits, remaining: int)
    requires UnitsOk(W8, s) && Readable(s, pos, remaining) && 0 < cp < 0x80000000
    requires pos + |Encode8(cp)| <= |s| && s[pos..pos + |Encode8(cp)|] == Encode8(cp)
    requires remaining >= 0 ==> |Encode8(cp)| <= remaining
    ensures Read8(s, pos, remaining) == Reading(cp, pos + |Encode8(cp)|, Spent(remaining, |Encode8(cp)|))
  {
    var n := TailLength(cp);
    var e := Encode8(cp);
    assert s[pos] == s[pos..pos + |e|][0] == e[0];
    LeadByte(cp);
    assert s[pos + 1..pos + 1 + n] == s[pos..pos + |e|][1..] == Tail(cp, n);
    ZeroAheadStep(s, pos);
    FollowTail(s, pos + 1, cp, n, Spent(remaining, n + 1));
  }

  lemma SplitTwenty(x: u32bits)
    requires x < 0x100000
    ensures High10(x) <= 0x3FF && Low10(x) <= 0x3FF
    ensures Join20(High10(x), Low10(x)) == x
  {
  }

  lemma JoinSurrogates(hi: u32bits, lo: u32bits)
    requires hi <= 0x3FF && lo <= 0x3FF
    ensures 0xD800 <= Based(hi, 0xD800) <= 0xDBFF && 0xDC00 <= Based(lo, 0xDC00) <= 0xDFFF
    ensures FromSurrogates(Based(hi, 0xD800), Based(lo, 0xDC00)) == Raised(Join20(hi, lo))
  {
    assert Based(hi, 0xD800) - 0xD800 == hi && Based(lo, 0xDC00) - 0xDC00 == lo;
  }

  lemma AboveBasicPlane(cp: u32bits)
    requires 0x10000 <= cp <= 0x10FFFF
    ensures Above(cp) < 0x100000 && Raised(Above(cp)) == cp
  {
  }

  // The two halves of a value beyond the basic plane are surrogates, and together they are the value.
  lemma SurrogatePair(cp: u32bits)
    requires 0x10000 <= cp <= 0x10FFFF
    ensures 0xD800 <= LeadSurrogate(cp) <= 0xDBFF && 0xDC00 <= TrailSurrogate(cp) <= 0xDFFF
    ensures FromSurrogates(LeadSurrogate(cp), TrailSurrogate(cp)) == cp
  {
    hide High10, Low10, Join20, FromSurrogates, Above, Raised, Based;
    var x := Above(cp);
    AboveBasicPlane(cp);
    SplitTwenty(x);
    JoinSurrogates(High10(x), Low10(x));
  }

  lemma Read16Encoded(s: seq<u32bits>, pos: nat, cp: u32bits, remaining: int)
    requires UnitsOk(W16, s) && Readable(s, pos, remaining) && Valid(W16, cp)
    requires pos + |Encode16(cp)| <= |s| && s[pos..pos + |Encode16(cp)|] == Encode16(cp)
    requires remaining >= 0 ==> |Encode16(cp)| <= remaining
    ensures Read16(s, pos, remaining) == Reading(cp, pos + |Encode16(cp)|, Spent(remaining, |Encode16(cp)|))
  {
    hide LeadSurrogate, TrailSurrogate, FromSurrogates;
    var e := Encode16(cp);
    assert forall i :: 0 <= i < |e| ==> s[pos + i] == s[pos..pos + |e|][i] == e[i];
    ZeroAheadStep(s, pos);
    if cp >= 0x10000 {
      SurrogatePair(cp);
    }
  }

  // ----- Whole buffers -----

  lemma {:induction false} EncodeAllUnits(w: Width, cps: seq<u32bits>)
    ensures UnitsOk(w, EncodeAll(w, cps))
    ensures AllValid(w, cps) ==> forall i :: 0 <= i < |EncodeAll(w, cps)| ==> EncodeAll(w, cps)[i] != 0
    ensures AllValid(w, cps) ==> |EncodeAll(w, cps)| >= |cps|
  {
    hide Encode, Valid;
    if cps != [] {
      EncodeUnits(w, cps[0]);
      EncodeAllUnits(w, cps[1..]);
    }
  }

  lemma {:induction false} EncodeAllAppend(w: Width, a: seq<u32bits>, b: seq<u32bits>)
    ensures EncodeAll(w, a + b) == EncodeAll(w, a) + EncodeAll(w, b)
  {
    hide Encode;
    if a == [] {
      assert a + b == b;
    } else {
      assert (a + b)[1..] == a[1..] + b;
      EncodeAllAppend(w, a[1..], b);
    }
  }

  // The encoding of valid code points reads back as those code points, whether the source is
  // counted exactly or ends in a zero.
  lemma {:induction false} ReadAllEncoded(w: Width, s: seq<u32bits>, pos: nat, cps: seq<u32bits>, remaining: int)
    requires AllValid(w, cps) && UnitsOk(w, s)
    requires pos + |EncodeAll(w, cps)| <= |s| && s[pos..pos + |EncodeAll(w, cps)|] == EncodeAll(w, cps)
    requires remaining == |EncodeAll(w, cps)|
      || (remaining < 0 && pos + |EncodeAll(w, cps)| < |s| && s[pos + |EncodeAll(w, cps)|] == 0)
    ensures Readable(s, pos, remaining) && ReadAll(w, s, pos, remaining) == cps
    decreases |cps|
  {
    hide Read, Encode, Valid, UnitsOk;
    var e := EncodeAll(w, cps);
    if cps == [] {
      ReadAtEnd(w, s, pos, remaining);
    } else {
      var h, t := Encode(w, cps[0]), EncodeAll(w, cps[1..]);
      assert e == h + t;
      SplitSlice(s, pos, h, t);
      assert Valid(w, cps[0]);
      ReadEncoded(w, s, pos, cps[0], remaining);
      NoStatus(w, cps[0]);
      EncodeUnits(w, cps[0]);
      ReadAllEncoded(w, s, pos + |h|, cps[1..], Spent(remaining, |h|));
      assert cps == [cps[0]] + cps[1..];
    }
  }

  lemma SplitSlice(s: seq<u32bits>, pos: nat, h: seq<u32bits>, t: seq<u32bits>)
    requires pos + |h| + |t| <= |s| && s[pos..pos + |h| + |t|] == h + t
    ensures s[pos..pos + |h|] == h && s[pos + |h|..pos + |h| + |t|] == t
  {
    var st := s[pos..pos + |h| + |t|];
    assert s[pos..pos + |h|] == st[..|h|];
    assert s[pos + |h|..pos + |h| + |t|] == st[|h|..];
  }

  lemma NoStatus(w: Width, cp: u32bits)
    requires Valid(w, cp)
    ensures !Stops(cp)
  {
  }

  lemma ReadAtEnd(w: Width, s: seq<u32bits>, pos: nat, remaining: int)
    requires UnitsOk(w, s) && (if remaining < 0 then pos < |s| && s[pos] == 0 else remaining == 0 && pos <= |s|)
    ensures Readable(s, pos, remaining) && Read(w, s, pos, remaining).code == END_OF_STREAM
  {
    if remaining < 0 {
      assert ZeroAhead(s, pos);
    }
  }

  // ----- Bounded destinations -----

  // Exactly the prefixes up to FitCount fit: the output is the encoding of the longest prefix that does.
  lemma {:induction false} FitsLongestPrefix(w: Width, cps: seq<u32bits>, room: nat, k: nat)
    requires AllValid(w, cps) && k <= |cps|
    ensures |EncodeAll(w, cps[..k])| <= room <==> k <= FitCount(w, cps, room)
  {
    hide Encode, Valid;
    if k > 0 {
      var e := Encode(w, cps[0]);
      EncodeUnits(w, cps[0]);
      assert cps[..k][1..] == cps[1..][..k - 1];
      assert EncodeAll(w, cps[..k]) == e + EncodeAll(w, cps[1..][..k - 1]);
      if |e| <= room {
        FitsLongestPrefix(w, cps[1..], room - |e|, k - 1);
      }
    }
  }

  lemma {:induction false} UnboundedFits(w: Width, cps: seq<u32bits>, room: int)
    requires room < 0
    ensures FitCount(w, cps, room) == |cps|
  {
    if cps != [] {
      UnboundedFits(w, cps[1..], room);
    }
  }

  lemma {:induction false} RoomForAll(w: Width, cps: seq<u32bits>, room: nat)
    requires |EncodeAll(w, cps)| < room
    ensures FitCount(w, cps, room) == |cps|
  {
    hide Encode;
    if cps != [] {
      RoomForAll(w, cps[1..], room - |Encode(w, cps[0])|);
    }
  }

  // ----- Conversion -----

  // What utfConv returns and leaves in the destination, the terminator apart.
  function Convert(from: Width, to: Width, s: seq<u32bits>, scnt: int, dcnt: int): (nat, seq<u32bits>)
    requires UnitsOk(from, s) && Readable(s, 0, scnt)
  {
    var cps := ReadAll(from, s, 0, scnt);
    var n := FitCount(to, cps, dcnt);
    (n, EncodeAll(to, cps[..n]))
  }

  // Valid text converts completely into any form with room for it, and the count is the number of code points.
  lemma ConvertValid(from: Width, to: Width, cps: seq<u32bits>, dcnt: int)
    requires AllValid(from, cps) && AllValid(to, cps)
    requires dcnt >= 0 ==> |EncodeAll(to, cps)| <= dcnt
    ensures var u := EncodeAll(from, cps);
      && UnitsOk(from, u) && Readable(u, 0, |u|)
      && Convert(from, to, u, |u|, dcnt) == (|cps|, EncodeAll(to, cps))
  {
    var u := EncodeAll(from, cps);
    EncodeAllUnits(from, cps);
    ReadAllEncoded(from, u, 0, cps, |u|);
    assert cps[..|cps|] == cps;
    if dcnt >= 0 {
      FitsLongestPrefix(to, cps, dcnt, |cps|);
    } else {
      UnboundedFits(to, cps, dcnt);
    }
  }

  // There and back again: the original units return. With UTF-8 and UTF-32 as the two forms
  // the code points may be any in 1..2^31-1; with UTF-16 they are the scalar values.
  lemma RoundTrip(a: Width, b: Width, cps: seq<u32bits>, roomThere: int, roomBack: int)
    requires AllValid(a, cps) && AllValid(b, cps)
    requires roomThere >= 0 ==> |EncodeAll(b, cps)| <= roomThere
    requires roomBack >= 0 ==> |EncodeAll(a, cps)| <= roomBack
    ensures var u := EncodeAll(a, cps);
      && UnitsOk(a, u) && Readable(u, 0, |u|)
      && var (n, v) := Convert(a, b, u, |u|, roomThere);
      && n == |cps| && UnitsOk(b, v) && Readable(v, 0, |v|)
      && Convert(b, a, v, |v|, roomBack) == (|cps|, u)
  {
    ConvertValid(a, b, cps, roomThere);
    ConvertValid(b, a, cps, roomBack);
  }

  // Zero-terminated text converts like counted text.
  lemma ConvertTerminated(from: Width, to: Width, cps: seq<u32bits>, junk: seq<u32bits>, dcnt: int)
    requires AllValid(from, cps) && UnitsOk(from, junk)
    ensures var u := EncodeAll(from, cps);
      var z := u + [0] + junk;
      && UnitsOk(from, u) && Readable(u, 0, |u|) && UnitsOk(from, z) && Readable(z, 0, -1)
      && Convert(from, to, z, -1, dcnt) == Convert(from, to, u, |u|, dcnt)
  {
    hide UnitsOk, EncodeAll, Readable;
    var u := EncodeAll(from, cps);
    var z := u + [0] + junk;
    EncodeAllUnits(from, cps);
    UnitsTerminated(from, u, junk);
    assert u[0..|u|] == u && z[0..|u|] == u && z[|u|] == 0;
    ReadAllEncoded(from, u, 0, cps, |u|);
    ReadAllEncoded(from, z, 0, cps, -1);
  }

  lemma UnitsTerminated(w: Width, u: seq<u32bits>, junk: seq<u32bits>)
    requires UnitsOk(w, u) && UnitsOk(w, junk)
    ensures UnitsOk(w, u + [0] + junk)
  {
  }

  // ----- Which text survives -----

  lemma ReadYieldsValid(w: Width, s: seq<u32bits>, pos: nat, remaining: int)
    requires UnitsOk(w, s) && Readable(s, pos, remaining)
    ensures var r := Read(w, s, pos, remaining);
      !Stops(r.code) && r.code != 0 ==> Valid(w, r.code)
  {
    ZeroAheadStep(s, pos);
    match w {
      case W8 =>
      case W16 =>
        if remaining != 0 && pos + 1 < |s| && 0xD800 <= s[pos] <= 0xDBFF && 0xDC00 <= s[pos + 1] <= 0xDFFF {
          PairInRange(s[pos], s[pos + 1]);
        }
      case W32 =>
    }
  }

  lemma PairInRange(c: u32bits, t: u32bits)
    requires 0xD800 <= c <= 0xDBFF && 0xDC00 <= t <= 0xDFFF
    ensures 0x10000 <= FromSurrogates(c, t) <= 0x10FFFF
  {
    assert c - 0xD800 <= 0x3FF && t - 0xDC00 <= 0x3FF;
    JoinBound(c - 0xD800, t - 0xDC00);
  }

  lemma JoinBound(hi: u32bits, lo: u32bits)
    requires hi <= 0x3FF && lo <= 0x3FF
    ensures Join20(hi, lo) <= 0xFFFFF
  {
  }

  // The encoding of a code point sequence reads back as that sequence exactly when every one of them is valid.
  lemma {:induction false} SurvivesIffValid(w: Width, cps: seq<u32bits>)
    ensures var u := EncodeAll(w, cps);
      UnitsOk(w, u) && Readable(u, 0, |u|) && (ReadAll(w, u, 0, |u|) == cps <==> AllValid(w, cps))
  {
    hide AllValid, EncodeAll, ReadAll, UnitsOk;
    var u := EncodeAll(w, cps);
    EncodeAllUnits(w, cps);
    assert u[0..|u|] == u && u[0..] == u;
    if AllValid(w, cps) {
      ReadAllEncoded(w, u, 0, cps, |u|);
    } else {
      InvalidDoesNotSurvive(w, u, 0, cps);
    }
  }

  // A counted encoding is read one code point at a time.
  lemma ReadFirst(w: Width, s: seq<u32bits>, pos: nat, cps: seq<u32bits>)
    requires UnitsOk(w, s) && pos <= |s| && s[pos..] == EncodeAll(w, cps) && cps != [] && Valid(w, cps[0])
    ensures var next := pos + |Encode(w, cps[0])|;
      && pos < next <= |s| && s[next..] == EncodeAll(w, cps[1..])
      && Read(w, s, pos, |s| - pos) == Reading(cps[0], next, |s| - next)
  {
    hide Read, Encode, Valid, UnitsOk, Stops;
    var h, t := Encode(w, cps[0]), EncodeAll(w, cps[1..]);
    assert s[pos..] == h + t && s[pos..pos + |h| + |t|] == s[pos..];
    SplitSlice(s, pos, h, t);
    assert s[pos + |h|..] == s[pos + |h|..pos + |h| + |t|];
    ReadEncoded(w, s, pos, cps[0], |s| - pos);
    EncodeUnits(w, cps[0]);
  }

  lemma {:induction false} InvalidDoesNotSurvive(w: Width, s: seq<u32bits>, pos: nat, cps: seq<u32bits>)
    requires UnitsOk(w, s) && pos <= |s| && s[pos..] == EncodeAll(w, cps) && !AllValid(w, cps)
    ensures ReadAll(w, s, pos, |s| - pos) != cps
    decreases |cps|
  {
    hide Read, Encode, Valid, UnitsOk, Stops, AllValid;
    EmptyValid(w);
    if Valid(w, cps[0]) {
      ReadFirst(w, s, pos, cps);
      NoStatus(w, cps[0]);
      InvalidLater(w, cps);
      InvalidDoesNotSurvive(w, s, pos + |Encode(w, cps[0])|, cps[1..]);
      assert cps == [cps[0]] + cps[1..];
    } else if cps[0] == 0 {
      ZeroEncodesAsZero(w);
      assert s[pos] == s[pos..][0] == Encode(w, cps[0])[0];
      ReadAtZero(w, s, pos, |s| - pos);
      EndStops();
    } else {
      ReadYieldsValid(w, s, pos, |s| - pos);
    }
  }

  lemma EmptyValid(w: Width)
    ensures AllValid(w, [])
  {
  }

  lemma InvalidLater(w: Width, cps: seq<u32bits>)
    requires cps != [] && Valid(w, cps[0]) && !AllValid(w, cps)
    ensures !AllValid(w, cps[1..])
  {
    var i :| 0 <= i < |cps| && !Valid(w, cps[i]);
    assert cps[1..][i - 1] == cps[i];
  }

  lemma EndStops()
    ensures Stops(END_OF_STREAM)
  {
  }

  lemma ZeroEncodesAsZero(w: Width)
    ensures Encode(w, 0) == [0]
  {
    assert Shifted(0, 0) == 0;
    assert Tail(0, 0) == [];
  }

  lemma ReadAtZero(w: Width, s: seq<u32bits>, pos: nat, remaining: int)
    requires UnitsOk(w, s) && Readable(s, pos, remaining) && pos < |s| && s[pos] == 0
    ensures Read(w, s, pos, remaining).code == END_OF_STREAM
  {
  }

  // ----- The size * 8 + 1 buffer -----

  lemma {:induction false} ReadAtMostOnePerUnit(w: Width, s: seq<u32bits>, pos: nat, remaining: nat)
    requires UnitsOk(w, s) && Readable(s, pos, remaining)
    ensures |ReadAll(w, s, pos, remaining)| <= remaining
    decreases |s| - pos
  {
    hide Read, UnitsOk;
    var r := Read(w, s, pos, remaining);
    ReadAdvances(w, s, pos, remaining);
    if !Stops(r.code) {
      StepWithin(w, s, pos, remaining);
      ReadAtMostOnePerUnit(w, s, r.pos, r.remaining);
    }
  }

  lemma StepWithin(w: Width, s: seq<u32bits>, pos: nat, remaining: nat)
    requires UnitsOk(w, s) && Readable(s, pos, remaining)
    ensures var r := Read(w, s, pos, remaining);
      !Stops(r.code) ==> 0 <= r.remaining < remaining
  {
    ReadAdvances(w, s, pos, remaining);
  }

  lemma {:induction false} AtMostSixEach(w: Width, cps: seq<u32bits>)
    ensures |EncodeAll(w, cps)| <= 6 * |cps|
  {
    if cps != [] {
      AtMostSixEach(w, cps[1..]);
    }
  }

  // Whatever the source holds, well formed or not, all that is read from its n units fits into
  // 8 * n + 1 units of any form, with room for the terminator.
  lemma BufferBound(from: Width, to: Width, s: seq<u32bits>)
    requires UnitsOk(from, s)
    ensures var cps := ReadAll(from, s, 0, |s|);
      && |EncodeAll(to, cps)| < 8 * |s| + 1
      && Convert(from, to, s, |s|, 8 * |s| + 1) == (|cps|, EncodeAll(to, cps))
  {
    var cps := ReadAll(from, s, 0, |s|);
    ReadAtMostOnePerUnit(from, s, 0, |s|);
    AtMostSixEach(to, cps);
    RoomForAll(to, cps, 8 * |s| + 1);
    assert cps[..|cps|] == cps;
  }
}
