/**
 Transcoding on values. A buffer is a sequence of units of one of three widths, each unit widened to 32 bits;
 code points and status codes share the 32-bit range, as they do in the program.
 */
module UtfSpec {
  import opened Prelude

  type u32bits = bv32

  const END_OF_STREAM: u32bits := 0xFFFFFFFF
  const BAD_FORMAT: u32bits := 0xFFFFFFFE
  const SUCCESS: u32bits := 0

  datatype Width = W8 | W16 | W32

  function Shr6(cp: u32bits): u32bits {
    cp >> 6
  }

  // The bits left after n six-bit groups are taken off the right.
  function Shifted(cp: u32bits, n: nat): u32bits {
    if n == 0 then cp else Shr6(Shifted(cp, n - 1))
  }

  // ----- Encoding -----

  // How many continuation bytes follow the lead byte.
  function TailLength(cp: u32bits): nat {
    if cp >= 0x4000000 then 5
    else if cp >= 0x200000 then 4
    else if cp >= 0x10000 then 3
    else if cp >= 0x800 then 2
    else if cp >= 0x80 then 1
    else 0
  }

  function LeadMark(n: nat): u32bits {
    if n == 0 then 0x00 else if n == 1 then 0xC0 else if n == 2 then 0xE0
    else if n == 3 then 0xF0 else if n == 4 then 0xF8 else 0xFC
  }

  // The payload bits of a lead byte announcing n continuation bytes.
  function Payload(c: u32bits, n: nat): u32bits {
    c & LeadMask(n)
  }

  function LeadMask(n: nat): u32bits {
    if n == 0 then 0xFF else if n == 1 then 0x1F else if n == 2 then 0x0F
    else if n == 3 then 0x07 else if n == 4 then 0x03 else 0x01
  }

  function Continuation(bits: u32bits): u32bits {
    0x80 | (bits & 0x3F)
  }

  // The last n six-bit groups of cp, most significant first.
  function Tail(cp: u32bits, n: nat): (r: seq<u32bits>)
    ensures |r| == n
    ensures forall i :: 0 <= i < n ==> r[i] == Continuation(Shifted(cp, n - 1 - i))
  {
    seq(n, i requires 0 <= i < n => Continuation(Shifted(cp, n - 1 - i)))
  }

  function Encode8(cp: u32bits): (r: seq<u32bits>)
    ensures |r| == TailLength(cp) + 1
  {
    var n := TailLength(cp);
    [LeadMark(n) | Payload(Shifted(cp, n), n)] + Tail(cp, n)
  }

  function High10(x: u32bits): u32bits {
    (x & 0xFFC00) >> 10
  }

  function Low10(x: u32bits): u32bits {
    x & 0x3FF
  }

  function Join20(hi: u32bits, lo: u32bits): u32bits {
    (hi << 10) | lo
  }

  // A value beyond the basic plane, counted from the end of that plane, and back.
  function Above(cp: u32bits): u32bits {
    cp - 0x10000
  }

  function Raised(x: u32bits): u32bits {
    x + 0x10000
  }

  function Based(x: u32bits, base: u32bits): u32bits {
    x + base
  }

  function LeadSurrogate(cp: u32bits): u32bits {
    Based(High10(Above(cp)), 0xD800)
  }

  function TrailSurrogate(cp: u32bits): u32bits {
    Based(Low10(Above(cp)), 0xDC00)
  }

  function FromSurrogates(c: u32bits, t: u32bits): u32bits {
    Raised(Join20(c - 0xD800, t - 0xDC00))
  }

  // A value beyond the range of UTF-16 is dropped.
  function Encode16(cp: u32bits): (r: seq<u32bits>)
    ensures |r| <= 2
  {
    if cp > 0x10FFFF then []
    else if cp >= 0x10000 then [LeadSurrogate(cp), TrailSurrogate(cp)]
    else [cp]
  }

  function Encode(w: Width, cp: u32bits): (r: seq<u32bits>)
    ensures |r| <= 6
  {
    match w
    case W8 => Encode8(cp)
    case W16 => Encode16(cp)
    case W32 => [cp]
  }

  function EncodeAll(w: Width, cps: seq<u32bits>): seq<u32bits> {
    if cps == [] then [] else Encode(w, cps[0]) + EncodeAll(w, cps[1..])
  }

  // ----- Writing with a bounded (n >= 0) or unbounded (n < 0) destination -----

  predicate Fits(w: Width, cp: u32bits, remaining: int) {
    remaining != 0 && (remaining > 0 ==> |Encode(w, cp)| <= remaining)
  }

  function Spent(remaining: int, n: nat): int {
    if remaining > 0 then remaining - n else remaining
  }

  // How many code points are written before the first one that does not fit.
  function FitCount(w: Width, cps: seq<u32bits>, remaining: int): (n: nat)
    ensures n <= |cps|
  {
    if cps == [] || !Fits(w, cps[0], remaining) then 0
    else 1 + FitCount(w, cps[1..], Spent(remaining, |Encode(w, cps[0])|))
  }

  // ----- Reading -----

  // The result of one read: a code point or a status, and where the reader is left.
  datatype Reading = Reading(code: u32bits, pos: nat, remaining: int)

  predicate Stops(code: u32bits) {
    code == END_OF_STREAM || code == BAD_FORMAT
  }

  // How many continuation bytes a lead byte announces.
  function FollowCount(c: u32bits): Option<nat> {
    if c & 0x80 == 0 then Some(0)
    else if c & 0xE0 == 0xC0 then Some(1)
    else if c & 0xF0 == 0xE0 then Some(2)
    else if c & 0xF8 == 0xF0 then Some(3)
    else if c & 0xFC == 0xF8 then Some(4)
    else if c & 0xFE == 0xFC then Some(5)
    else None
  }

  // Bound on the bits gathered so far when n more groups of six are to come.
  function Limit(n: nat): u32bits {
    if n == 0 then 0x80000000 else if n == 1 then 0x2000000 else if n == 2 then 0x80000
    else if n == 3 then 0x2000 else if n == 4 then 0x80 else 0x2
  }

  ghost predicate UnitsOk(w: Width, s: seq<u32bits>) {
    match w
    case W8 => forall i :: 0 <= i < |s| ==> s[i] < 0x100
    case W16 => forall i :: 0 <= i < |s| ==> s[i] < 0x10000
    case W32 => true
  }

  ghost predicate ZeroAhead(s: seq<u32bits>, pos: nat) {
    exists i :: pos <= i < |s| && s[i] == 0
  }

  // A bounded reader stays inside its count; an unbounded one relies on a terminating zero.
  ghost predicate Readable(s: seq<u32bits>, pos: nat, remaining: int) {
    if remaining >= 0 then pos + remaining <= |s| else ZeroAhead(s, pos)
  }

  lemma ZeroAheadStep(s: seq<u32bits>, pos: nat)
    ensures ZeroAhead(s, pos) ==> pos < |s| && (s[pos] != 0 ==> pos + 1 < |s| && ZeroAhead(s, pos + 1))
  {
  }

  predicate IsContinuation(c: u32bits) {
    c & 0xC0 == 0x80
  }

  predicate Within(cp: u32bits, n: nat) {
    cp < Limit(n)
  }

  function Gather(cp: u32bits, c: u32bits): u32bits {
    (cp << 6) | (c & 0x3F)
  }

  lemma GatherBound(cp: u32bits, c: u32bits, n: nat)
    requires 0 < n <= 5 && Within(cp, n)
    ensures Within(Gather(cp, c), n - 1)
  {
  }

  // Read n continuation bytes, the first at pos, into cp. Spent units were deducted beforehand.
  function Follow(s: seq<u32bits>, pos: nat, n: nat, cp: u32bits, remaining: int): (r: Reading)
    requires n <= 5 && Within(cp, n)
    requires if remaining >= 0 then pos + n <= |s| else ZeroAhead(s, pos)
    ensures r.code < 0x80000000 || (r.code == BAD_FORMAT && n > 0)
    ensures !Stops(r.code) ==> r.pos == pos + n && (remaining < 0 ==> ZeroAhead(s, r.pos))
    ensures r.remaining == remaining
    decreases n
  {
    if n == 0 then Reading(cp, pos, remaining)
    else
      ZeroAheadStep(s, pos);
      if IsContinuation(s[pos]) then
        GatherBound(cp, s[pos], n);
        Follow(s, pos + 1, n - 1, Gather(cp, s[pos]), remaining)
      else Reading(BAD_FORMAT, pos, remaining)
  }

  function Read8(s: seq<u32bits>, pos: nat, remaining: int): (r: Reading)
    requires UnitsOk(W8, s) && Readable(s, pos, remaining)
  {
    ZeroAheadStep(s, pos);
    if remaining == 0 || s[pos] == 0 then Reading(END_OF_STREAM, pos, remaining)
    else
      var c := s[pos];
      LeadBound(c);
      match FollowCount(c)
      case None => Reading(BAD_FORMAT, pos, remaining)
      case Some(n) =>
        if 0 < remaining < n + 1 then Reading(END_OF_STREAM, pos, remaining)
        else Follow(s, pos + 1, n, Payload(c, n), Spent(remaining, n + 1))
  }

  function Read16(s: seq<u32bits>, pos: nat, remaining: int): (r: Reading)
    requires UnitsOk(W16, s) && Readable(s, pos, remaining)
  {
    ZeroAheadStep(s, pos);
    if remaining == 0 || s[pos] == 0 then Reading(END_OF_STREAM, pos, remaining)
    else
      var c := s[pos];
      if 0xD800 <= c <= 0xDBFF then
        if 0 < remaining < 2 then Reading(END_OF_STREAM, pos, remaining)
        else
          var t := s[pos + 1];
          if 0xDC00 <= t <= 0xDFFF then
            Reading(FromSurrogates(c, t), pos + 2, Spent(remaining, 2))
          else Reading(BAD_FORMAT, pos + 1, Spent(remaining, 2))
      else if 0xDC00 <= c <= 0xDFFF then Reading(BAD_FORMAT, pos, remaining)
      else Reading(c, pos + 1, Spent(remaining, 1))
  }

  function Read32(s: seq<u32bits>, pos: nat, remaining: int): (r: Reading)
    requires Readable(s, pos, remaining)
  {
    ZeroAheadStep(s, pos);
    if remaining == 0 || s[pos] == 0 then Reading(END_OF_STREAM, pos, remaining)
    else Reading(s[pos], pos + 1, Spent(remaining, 1))
  }

  function Read(w: Width, s: seq<u32bits>, pos: nat, remaining: int): Reading
    requires UnitsOk(w, s) && Readable(s, pos, remaining)
  {
    match w
    case W8 => Read8(s, pos, remaining)
    case W16 => Read16(s, pos, remaining)
    case W32 => Read32(s, pos, remaining)
  }

  lemma LeadBound(c: u32bits)
    requires c < 0x100
    ensures FollowCount(c).Some? ==>
      FollowCount(c).value <= 5 && Within(Payload(c, FollowCount(c).value), FollowCount(c).value)
  {
  }

  // A code point read leaves the reader further on, still inside its count or before the terminating zero.
  lemma ReadAdvances(w: Width, s: seq<u32bits>, pos: nat, remaining: int)
    requires UnitsOk(w, s) && Readable(s, pos, remaining)
    ensures var r := Read(w, s, pos, remaining);
      !Stops(r.code) ==>
        && pos < r.pos <= |s| && Readable(s, r.pos, r.remaining)
        && r.remaining == Spent(remaining, r.pos - pos) && r.remaining <= remaining
  {
    ZeroAheadStep(s, pos);
    ZeroAheadStep(s, pos + 1);
  }

  // All the code points up to the first status.
  function ReadAll(w: Width, s: seq<u32bits>, pos: nat, remaining: int): seq<u32bits>
    requires UnitsOk(w, s) && Readable(s, pos, remaining)
    decreases |s| - pos
  {
    var r := Read(w, s, pos, remaining);
    ReadAdvances(w, s, pos, remaining);
    if Stops(r.code) then [] else [r.code] + ReadAll(w, s, r.pos, r.remaining)
  }
}
