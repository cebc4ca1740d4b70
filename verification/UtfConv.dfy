/**
 The readers, the writers and the conversion loop, over buffers rewritten in place. A unit of any width is
 stored widened to 32 bits; a store into a narrower buffer truncates as the cast in the program does.
 */
module UtfConv {
  import opened Prelude
  import opened UtfSpec
  import opened UtfTheorems

  // ----- Readers -----

  class Utf8Reader {
    const buf: array<u32bits>
    var current: nat
    var remaining: int

    constructor (buf: array<u32bits>, cnt: int)
      ensures this.buf == buf && current == 0 && remaining == cnt
    {
      this.buf := buf;
      current, remaining := 0, cnt;
    }

    method Read() returns (code: u32bits)
      requires UnitsOk(W8, buf[..]) && Readable(buf[..], current, remaining)
      modifies this
      ensures Reading(code, current, remaining) == Read8(buf[..], old(current), old(remaining))
    {
      hide Follow, FollowCount, Payload, Within, UnitsOk;
      ghost var s := buf[..];
      ZeroAheadStep(s, current);
      if remaining == 0 || buf[current] == 0 {
        return END_OF_STREAM;
      }
      var c := buf[current];
      ByteUnit(s, current);
      LeadBound(c);
      var sbcnt, codepoint := Lead(c);
      if sbcnt < 0 {
        return BAD_FORMAT;
      }
      code := ReadBody(codepoint, sbcnt);
    }

    // After the lead byte: deduct the units of the code point from the count, then gather it.
    method ReadBody(lead: u32bits, count: nat) returns (code: u32bits)
      requires count <= 5 && Within(lead, count) && remaining != 0
      requires if remaining >= 0 then current + remaining <= buf.Length else ZeroAhead(buf[..], current + 1)
      modifies this
      ensures
        if 0 < old(remaining) < count + 1 then
          code == END_OF_STREAM && current == old(current) && remaining == old(remaining)
        else
          Reading(code, current, remaining)
            == Follow(old(buf[..]), old(current) + 1, count, lead, Spent(old(remaining), count + 1))
    {
      hide Follow, Within;
      ghost var s := buf[..];
      if remaining > 0 {
        if remaining < count + 1 {
          return END_OF_STREAM;
        }
        remaining := remaining - (count + 1);
      }
      assert buf[..] == s;
      code := FollowBytes(lead, count);
    }

    // Classify a lead byte: the number of continuation bytes, or -1, and its payload bits.
    static method Lead(c: u32bits) returns (sbcnt: int, codepoint: u32bits)
      requires c < 0x100
      ensures FollowCount(c).None? ==> sbcnt == -1
      ensures FollowCount(c).Some? ==> sbcnt == FollowCount(c).value && codepoint == Payload(c, sbcnt)
    {
      if c & 0x80 == 0 {
        LeadPayload(c);
        return 0, c;
      } else if c & 0xE0 == 0xC0 {
        return 1, c & 0x1F;
      } else if c & 0xF0 == 0xE0 {
        return 2, c & 0x0F;
      } else if c & 0xF8 == 0xF0 {
        return 3, c & 0x07;
      } else if c & 0xFC == 0xF8 {
        return 4, c & 0x03;
      } else if c & 0xFE == 0xFC {
        return 5, c & 0x01;
      } else {
        return -1, 0;
      }
    }

    // The continuation loop, entered with current at the lead byte.
    method FollowBytes(lead: u32bits, count: nat) returns (code: u32bits)
      requires count <= 5 && Within(lead, count)
      requires if remaining >= 0 then current + 1 + count <= buf.Length else ZeroAhead(buf[..], current + 1)
      modifies this`current
      ensures Reading(code, current, remaining) == Follow(old(buf[..]), old(current) + 1, count, lead, remaining)
    {
      hide IsContinuation, Gather, Within, ZeroAhead, Follow;
      ghost var s := buf[..];
      var codepoint, sbcnt := lead, count;
      while sbcnt > 0
        invariant 0 <= sbcnt <= count && Within(codepoint, sbcnt)
        invariant if remaining >= 0 then current + 1 + sbcnt <= buf.Length else ZeroAhead(s, current + 1)
        invariant Follow(s, old(current) + 1, count, lead, remaining)
          == Follow(s, current + 1, sbcnt, codepoint, remaining)
      {
        FollowStep(s, current + 1, sbcnt, codepoint, remaining);
        sbcnt := sbcnt - 1;
        current := current + 1;
        if IsContinuation(buf[current]) {
          codepoint := Gather(codepoint, buf[current]);
        } else {
          return BAD_FORMAT;
        }
      }
      FollowNone(s, current + 1, codepoint, remaining);
      current := current + 1;
      return codepoint;
    }
  }

  // One turn of the continuation loop.
  lemma FollowStep(s: seq<u32bits>, pos: nat, n: nat, cp: u32bits, remaining: int)
    requires 0 < n <= 5 && Within(cp, n)
    requires if remaining >= 0 then pos + n <= |s| else ZeroAhead(s, pos)
    ensures pos < |s|
    ensures if IsContinuation(s[pos]) then
        && Within(Gather(cp, s[pos]), n - 1)
        && (remaining < 0 ==> ZeroAhead(s, pos + 1))
        && Follow(s, pos, n, cp, remaining) == Follow(s, pos + 1, n - 1, Gather(cp, s[pos]), remaining)
      else Follow(s, pos, n, cp, remaining) == Reading(BAD_FORMAT, pos, remaining)
  {
    hide Gather, Within, IsContinuation;
    ZeroAheadStep(s, pos);
    GatherBound(cp, s[pos], n);
    NotZero(s[pos]);
  }

  lemma FollowNone(s: seq<u32bits>, pos: nat, cp: u32bits, remaining: int)
    requires Within(cp, 0) && (if remaining >= 0 then pos <= |s| else ZeroAhead(s, pos))
    ensures Follow(s, pos, 0, cp, remaining) == Reading(cp, pos, remaining)
  {
  }

  lemma ByteUnit(s: seq<u32bits>, pos: nat)
    requires UnitsOk(W8, s) && pos < |s|
    ensures s[pos] < 0x100
  {
  }

  lemma LeadPayload(c: u32bits)
    requires c < 0x100
    ensures Payload(c, 0) == c
  {
  }

  class Ucs2Reader {
    const buf: array<u32bits>
    var current: nat
    var remaining: int

    constructor (buf: array<u32bits>, cnt: int)
      ensures this.buf == buf && current == 0 && remaining == cnt
    {
      this.buf := buf;
      current, remaining := 0, cnt;
    }

    method Read() returns (code: u32bits)
      requires UnitsOk(W16, buf[..]) && Readable(buf[..], current, remaining)
      modifies this
      ensures Reading(code, current, remaining) == Read16(buf[..], old(current), old(remaining))
    {
      ZeroAheadStep(buf[..], current);
      if remaining == 0 || buf[current] == 0 {
        return END_OF_STREAM;
      }
      var c := buf[current];
      var codepoint := c;
      if 0xD800 <= c && c <= 0xDBFF {
        if remaining > 0 {
          if remaining < 2 {
            return END_OF_STREAM;
          }
          remaining := remaining - 2;
        }
        current := current + 1;
        var t := buf[current];
        if 0xDC00 <= t && t <= 0xDFFF {
          codepoint := FromSurrogates(c, t);
        } else {
          return BAD_FORMAT;
        }
      } else if 0xDC00 <= c && c <= 0xDFFF {
        return BAD_FORMAT;
      } else {
        if remaining > 0 {
          remaining := remaining - 1;
        }
      }
      current := current + 1;
      return codepoint;
    }
  }

  class Ucs4Reader {
    const buf: array<u32bits>
    var current: nat
    var remaining: int

    constructor (buf: array<u32bits>, cnt: int)
      ensures this.buf == buf && current == 0 && remaining == cnt
    {
      this.buf := buf;
      current, remaining := 0, cnt;
    }

    method Read() returns (code: u32bits)
      requires Readable(buf[..], current, remaining)
      modifies this
      ensures Reading(code, current, remaining) == Read32(buf[..], old(current), old(remaining))
    {
      ZeroAheadStep(buf[..], current);
      if remaining == 0 || buf[current] == 0 {
        return END_OF_STREAM;
      }
      if remaining > 0 {
        remaining := remaining - 1;
      }
      code := buf[current];
      current := current + 1;
    }
  }

  // ----- Writers -----

  // m with the units e at position pos.
  function Spliced(m: seq<u32bits>, pos: nat, e: seq<u32bits>): (r: seq<u32bits>)
    requires pos + |e| <= |m|
    ensures |r| == |m|
  {
    m[..pos] + e + m[pos + |e|..]
  }

  // What a write of cp leaves: the encoding in place if it fits, and nothing changed otherwise.
  ghost predicate Wrote(w: Width, cp: u32bits, m: seq<u32bits>, pos: nat, remaining: int,
                        status: u32bits, n: seq<u32bits>, pos': nat, remaining': int)
  {
    if Fits(w, cp, remaining) then
      && status == 0
      && pos + |Encode(w, cp)| <= |m|
      && n == Spliced(m, pos, Encode(w, cp))
      && pos' == pos + |Encode(w, cp)|
      && remaining' == Spent(remaining, |Encode(w, cp)|)
    else
      status == 0xFFFFFFFF && n == m && pos' == pos && remaining' == remaining
  }

  // A bounded writer stays inside its count; an unbounded one is promised room for the next code point.
  predicate Writable(w: Width, cp: u32bits, length: nat, pos: nat, remaining: int) {
    if remaining >= 0 then pos + remaining <= length else pos + |Encode(w, cp)| <= length
  }

  class Utf8Writer {
    const buf: array<u32bits>
    var current: nat
    var remaining: int

    constructor (buf: array<u32bits>, cnt: int)
      ensures this.buf == buf && current == 0 && remaining == cnt
    {
      this.buf := buf;
      current, remaining := 0, cnt;
    }

    method Write(cp: u32bits) returns (status: u32bits)
      requires Writable(W8, cp, buf.Length, current, remaining)
      modifies this, buf
      ensures Wrote(W8, cp, old(buf[..]), old(current), old(remaining), status, buf[..], current, remaining)
    {
      if remaining == 0 {
        return END_OF_STREAM;
      }
      var sbcnt := 0;
      if cp >= 0x4000000 {
        sbcnt := 5;
      } else if cp >= 0x200000 {
        sbcnt := 4;
      } else if cp >= 0x10000 {
        sbcnt := 3;
      } else if cp >= 0x800 {
        sbcnt := 2;
      } else if cp >= 0x80 {
        sbcnt := 1;
      }
      if remaining > 0 {
        if remaining < sbcnt + 1 {
          return END_OF_STREAM;
        }
        remaining := remaining - (sbcnt + 1);
      }
      PutBytes(cp, sbcnt);
      current := current + (sbcnt + 1);
      return SUCCESS;
    }

    // Fill in the continuation bytes from the last to the first, then the lead byte.
    method PutBytes(cp: u32bits, sbcnt: nat)
      requires sbcnt == TailLength(cp) && current + sbcnt < buf.Length
      modifies buf
      ensures buf[..] == Spliced(old(buf[..]), current, Encode8(cp))
    {
      hide Shr6, Continuation, LeadMark, Payload, TailLength;
      ghost var t := Tail(cp, sbcnt);
      var rest := cp;
      var i := sbcnt;
      while i > 0
        invariant 0 <= i <= sbcnt && rest == Shifted(cp, sbcnt - i)
        invariant forall k :: 0 <= k < buf.Length ==>
          buf[k] == if current + i < k <= current + sbcnt then t[k - current - 1] else old(buf[k])
      {
        assert t[i - 1] == Continuation(rest);
        buf[current + i] := Continuation(rest);
        rest := Shr6(rest);
        i := i - 1;
      }
      buf[current] := LeadMark(sbcnt) | Payload(rest, sbcnt);
    }

    method Closure() returns (status: u32bits)
      requires remaining != 0 ==> current < buf.Length
      modifies buf
      ensures if remaining != 0 then status == 0 && buf[..] == old(buf[..])[current := 0]
              else status == 0xFFFFFFFF && buf[..] == old(buf[..])
    {
      if remaining != 0 {
        buf[current] := 0;
        return SUCCESS;
      }
      return END_OF_STREAM;
    }
  }

  class Ucs2Writer {
    const buf: array<u32bits>
    var current: nat
    var remaining: int

    constructor (buf: array<u32bits>, cnt: int)
      ensures this.buf == buf && current == 0 && remaining == cnt
    {
      this.buf := buf;
      current, remaining := 0, cnt;
    }

    method Write(cp: u32bits) returns (status: u32bits)
      requires Writable(W16, cp, buf.Length, current, remaining)
      modifies this, buf
      ensures Wrote(W16, cp, old(buf[..]), old(current), old(remaining), status, buf[..], current, remaining)
    {
      hide LeadSurrogate, TrailSurrogate, Truncate16, Spliced;
      ZeroUnits(buf[..], current);
      if remaining == 0 {
        return END_OF_STREAM;
      }
      if cp > 0x10FFFF {
        // An impossible code point value is skipped, and reported as written.
        return SUCCESS;
      }
      if cp >= 0x10000 {
        if remaining > 0 {
          if remaining < 2 {
            return END_OF_STREAM;
          }
          remaining := remaining - 2;
        }
        Put(current, [LeadSurrogate(cp), TrailSurrogate(cp)]);
        current := current + 2;
      } else {
        if remaining > 0 {
          remaining := remaining - 1;
        }
        LowPlane(cp);
        Put(current, [Truncate16(cp)]);
        current := current + 1;
      }
      return SUCCESS;
    }

    // Store one or two units at pos.
    method Put(pos: nat, units: seq<u32bits>)
      requires 1 <= |units| <= 2 && pos + |units| <= buf.Length
      modifies buf
      ensures buf[..] == Spliced(old(buf[..]), pos, units)
    {
      buf[pos] := units[0];
      if |units| == 2 {
        buf[pos + 1] := units[1];
      }
    }

    method Closure() returns (status: u32bits)
      requires remaining != 0 ==> current < buf.Length
      modifies buf
      ensures if remaining != 0 then status == 0 && buf[..] == old(buf[..])[current := 0]
              else status == 0xFFFFFFFF && buf[..] == old(buf[..])
    {
      if remaining != 0 {
        buf[current] := 0;
        return SUCCESS;
      }
      return END_OF_STREAM;
    }
  }

  // (u16) cp
  function Truncate16(cp: u32bits): u32bits {
    cp & 0xFFFF
  }

  lemma LowPlane(cp: u32bits)
    requires cp < 0x10000
    ensures Truncate16(cp) == cp
  {
  }

  lemma ZeroUnits(m: seq<u32bits>, pos: nat)
    requires pos <= |m|
    ensures Spliced(m, pos, []) == m
  {
  }

  class Ucs4Writer {
    const buf: array<u32bits>
    var current: nat
    var remaining: int

    constructor (buf: array<u32bits>, cnt: int)
      ensures this.buf == buf && current == 0 && remaining == cnt
    {
      this.buf := buf;
      current, remaining := 0, cnt;
    }

    method Write(cp: u32bits) returns (status: u32bits)
      requires Writable(W32, cp, buf.Length, current, remaining)
      modifies this, buf
      ensures Wrote(W32, cp, old(buf[..]), old(current), old(remaining), status, buf[..], current, remaining)
    {
      if remaining == 0 {
        return END_OF_STREAM;
      }
      if remaining > 0 {
        remaining := remaining - 1;
      }
      buf[current] := cp;
      current := current + 1;
      return SUCCESS;
    }

    method Closure() returns (status: u32bits)
      requires remaining != 0 ==> current < buf.Length
      modifies buf
      ensures if remaining != 0 then status == 0 && buf[..] == old(buf[..])[current := 0]
              else status == 0xFFFFFFFF && buf[..] == old(buf[..])
    {
      if remaining != 0 {
        buf[current] := 0;
        return SUCCESS;
      }
      return END_OF_STREAM;
    }
  }

  // ----- Selecting a reader and a writer by character width -----

  datatype UcReader = Reader8(r8: Utf8Reader) | Reader16(r16: Ucs2Reader) | Reader32(r32: Ucs4Reader) {
    function Form(): Width {
      if Reader8? then W8 else if Reader16? then W16 else W32
    }

    ghost function Obj(): object {
      match this
      case Reader8(r) => r
      case Reader16(r) => r
      case Reader32(r) => r
    }

    function Buf(): array<u32bits> {
      match this
      case Reader8(r) => r.buf
      case Reader16(r) => r.buf
      case Reader32(r) => r.buf
    }

    ghost function Pos(): nat
      reads Obj()
    {
      match this
      case Reader8(r) => r.current
      case Reader16(r) => r.current
      case Reader32(r) => r.current
    }

    ghost function Remaining(): int
      reads Obj()
    {
      match this
      case Reader8(r) => r.remaining
      case Reader16(r) => r.remaining
      case Reader32(r) => r.remaining
    }
  }

  datatype UcWriter = Writer8(w8: Utf8Writer) | Writer16(w16: Ucs2Writer) | Writer32(w32: Ucs4Writer) {
    function Form(): Width {
      if Writer8? then W8 else if Writer16? then W16 else W32
    }

    ghost function Obj(): object {
      match this
      case Writer8(w) => w
      case Writer16(w) => w
      case Writer32(w) => w
    }

    function Buf(): array<u32bits> {
      match this
      case Writer8(w) => w.buf
      case Writer16(w) => w.buf
      case Writer32(w) => w.buf
    }

    ghost function Pos(): nat
      reads Obj()
    {
      match this
      case Writer8(w) => w.current
      case Writer16(w) => w.current
      case Writer32(w) => w.current
    }

    ghost function Remaining(): int
      reads Obj()
    {
      match this
      case Writer8(w) => w.remaining
      case Writer16(w) => w.remaining
      case Writer32(w) => w.remaining
    }
  }

  function WidthOf(size: nat): Option<Width> {
    if size == 1 then Some(W8) else if size == 2 then Some(W16) else if size == 4 then Some(W32) else None
  }

  // Units of one, two and four bytes are supported, each with all the values it can have, and no others are.
  lemma WidthMeans(size: nat, w: Width, s: seq<u32bits>)
    ensures WidthOf(size).Some? <==> size == 1 || size == 2 || size == 4
    ensures WidthOf(size) == Some(w) ==>
      (UnitsOk(w, s) <==> forall i: nat :: i < |s| ==> (size == 1 ==> s[i] <= 0xFF) && (size == 2 ==> s[i] <= 0xFFFF))
    ensures WidthOf(size) == Some(w) && size == 4 ==> w == W32
  {
  }

  method NewReader(form: Width, buf: array<u32bits>, cnt: int) returns (r: UcReader)
    ensures r.Form() == form && r.Buf() == buf && fresh(r.Obj()) && r.Pos() == 0 && r.Remaining() == cnt
  {
    match form {
      case W8 => var o := new Utf8Reader(buf, cnt); r := Reader8(o);
      case W16 => var o := new Ucs2Reader(buf, cnt); r := Reader16(o);
      case W32 => var o := new Ucs4Reader(buf, cnt); r := Reader32(o);
    }
  }

  method NewWriter(form: Width, buf: array<u32bits>, cnt: int) returns (w: UcWriter)
    ensures w.Form() == form && w.Buf() == buf && fresh(w.Obj()) && w.Pos() == 0 && w.Remaining() == cnt
  {
    match form {
      case W8 => var o := new Utf8Writer(buf, cnt); w := Writer8(o);
      case W16 => var o := new Ucs2Writer(buf, cnt); w := Writer16(o);
      case W32 => var o := new Ucs4Writer(buf, cnt); w := Writer32(o);
    }
  }

  method ReadCodePoint(r: UcReader) returns (code: u32bits)
    requires UnitsOk(r.Form(), r.Buf()[..]) && Readable(r.Buf()[..], r.Pos(), r.Remaining())
    modifies r.Obj()
    ensures Reading(code, r.Pos(), r.Remaining()) == Read(r.Form(), r.Buf()[..], old(r.Pos()), old(r.Remaining()))
  {
    match r {
      case Reader8(o) => code := o.Read();
      case Reader16(o) => code := o.Read();
      case Reader32(o) => code := o.Read();
    }
  }

  method WriteCodePoint(w: UcWriter, cp: u32bits) returns (status: u32bits)
    requires Writable(w.Form(), cp, w.Buf().Length, w.Pos(), w.Remaining())
    modifies w.Obj(), w.Buf()
    ensures Wrote(w.Form(), cp, old(w.Buf()[..]), old(w.Pos()), old(w.Remaining()),
                  status, w.Buf()[..], w.Pos(), w.Remaining())
  {
    match w {
      case Writer8(o) => status := o.Write(cp);
      case Writer16(o) => status := o.Write(cp);
      case Writer32(o) => status := o.Write(cp);
    }
  }

  method CloseWriter(w: UcWriter)
    requires w.Remaining() != 0 ==> w.Pos() < w.Buf().Length
    modifies w.Buf()
    ensures w.Buf()[..] ==
      if w.Remaining() != 0 then old(w.Buf()[..])[w.Pos() := 0] else old(w.Buf()[..])
  {
    match w {
      case Writer8(o) => var _ := o.Closure();
      case Writer16(o) => var _ := o.Closure();
      case Writer32(o) => var _ := o.Closure();
    }
  }

  // ----- The conversion -----

  // What the destination must hold for an unbounded conversion: everything read, and the terminator.
  ghost predicate Roomy(to: Width, cps: seq<u32bits>, length: nat, dcnt: int) {
    if dcnt >= 0 then dcnt <= length else |EncodeAll(to, cps)| < length
  }

  // The destination afterwards: the encoding of the n code points written, then a zero if everything
  // was written and a unit is left for it; what lies beyond is untouched.
  ghost predicate Filled(to: Width, cps: seq<u32bits>, n: nat, dcnt: int, before: seq<u32bits>, after: seq<u32bits>)
    requires n <= |cps|
  {
    var e := EncodeAll(to, cps[..n]);
    && |after| == |before| && |e| <= |before|
    && after == if n == |cps| && |e| != dcnt && |e| < |before| then e + [0] + before[|e| + 1..] else e + before[|e|..]
  }

  lemma FilledStep(to: Width, cps: seq<u32bits>, k: nat, before: seq<u32bits>, m: seq<u32bits>, n: seq<u32bits>)
    requires k < |cps|
    requires var e := EncodeAll(to, cps[..k]);
      var h := Encode(to, cps[k]);
      |e| + |h| <= |before| && m == e + before[|e|..] && n == Spliced(m, |e|, h)
    ensures var e' := EncodeAll(to, cps[..k + 1]);
      |e'| == |EncodeAll(to, cps[..k])| + |Encode(to, cps[k])| && n == e' + before[|e'|..]
  {
    hide Encode;
    assert cps[..k + 1] == cps[..k] + [cps[k]];
    EncodeAllAppend(to, cps[..k], [cps[k]]);
    assert EncodeAll(to, [cps[k]]) == Encode(to, cps[k]) + EncodeAll(to, [cps[k]][1..]);
    assert EncodeAll(to, [cps[k]]) == Encode(to, cps[k]);
  }

  lemma PrefixNoLonger(to: Width, cps: seq<u32bits>, k: nat)
    requires k <= |cps|
    ensures |EncodeAll(to, cps[..k])| <= |EncodeAll(to, cps)|
  {
    assert cps == cps[..k] + cps[k..];
    EncodeAllAppend(to, cps[..k], cps[k..]);
  }

  // What is left of the destination's count after some units.
  function Left(dcnt: int, used: nat): int {
    if dcnt >= 0 then dcnt - used else dcnt
  }

  method UtfConvInner(sbuf: array<u32bits>, dbuf: array<u32bits>, scw: nat, dcw: nat, scnt: int, dcnt: int)
    returns (cnt: int)
    requires sbuf != dbuf
    requires WidthOf(scw).Some? && WidthOf(dcw).Some? ==>
      && UnitsOk(WidthOf(scw).value, sbuf[..]) && Readable(sbuf[..], 0, scnt)
      && Roomy(WidthOf(dcw).value, ReadAll(WidthOf(scw).value, sbuf[..], 0, scnt), dbuf.Length, dcnt)
    modifies dbuf
    ensures cnt < 0 <==> scw !in {1, 2, 4} || dcw !in {1, 2, 4}
    ensures cnt < 0 ==> cnt == -1 && dbuf[..] == old(dbuf[..])
    ensures WidthOf(scw).Some? && WidthOf(dcw).Some? ==>
      var from, to := WidthOf(scw).value, WidthOf(dcw).value;
      var cps := ReadAll(from, old(sbuf[..]), 0, scnt);
      && cnt == FitCount(to, cps, dcnt)
      && Filled(to, cps, cnt, dcnt, old(dbuf[..]), dbuf[..])
  {
    if WidthOf(scw).None? || WidthOf(dcw).None? {
      return -1;
    }
    cnt := ConvertLoop(sbuf, dbuf, WidthOf(scw).value, WidthOf(dcw).value, scnt, dcnt);
  }

  method ConvertLoop(sbuf: array<u32bits>, dbuf: array<u32bits>, from: Width, to: Width, scnt: int, dcnt: int)
    returns (cnt: nat)
    requires sbuf != dbuf
    requires UnitsOk(from, sbuf[..]) && Readable(sbuf[..], 0, scnt)
    requires Roomy(to, ReadAll(from, sbuf[..], 0, scnt), dbuf.Length, dcnt)
    modifies dbuf
    ensures cnt == FitCount(to, ReadAll(from, old(sbuf[..]), 0, scnt), dcnt)
    ensures Filled(to, ReadAll(from, old(sbuf[..]), 0, scnt), cnt, dcnt, old(dbuf[..]), dbuf[..])
  {
    hide Read, Encode, UnitsOk, Readable, WriterInv, Writable, Wrote, Roomy, Filled, FitCount, EncodeAll;
    ghost var s, before := sbuf[..], dbuf[..];
    ghost var cps := ReadAll(from, s, 0, scnt);
    var r := NewReader(from, sbuf, scnt);
    var w := NewWriter(to, dbuf, dcnt);
    WriterStarts(to, cps, dcnt, before);
    cnt := 0;
    while true
      invariant fresh(r.Obj()) && fresh(w.Obj()) && r.Obj() != w.Obj()
      invariant sbuf[..] == s && cnt <= |cps|
      invariant Readable(s, r.Pos(), r.Remaining()) && ReadAll(from, s, r.Pos(), r.Remaining()) == cps[cnt..]
      invariant WriterInv(to, cps, cnt, dcnt, before, dbuf[..], w.Pos(), w.Remaining())
      decreases |s| - r.Pos()
    {
      ReadAdvances(from, s, r.Pos(), r.Remaining());
      var cp := ReadCodePoint(r);
      ghost var m, pos, rem := dbuf[..], w.Pos(), w.Remaining();
      if Stops(cp) {
        assert cps[cnt..] == [];
        WriterFinishes(to, cps, dcnt, before, m, pos, rem);
        CloseWriter(w);
        break;
      }
      assert cps[cnt..] == [cp] + ReadAll(from, s, r.Pos(), r.Remaining());
      assert cp == cps[cnt..][0] == cps[cnt] && cps[cnt..][1..] == cps[cnt + 1..];
      WriterReady(to, cps, cnt, dcnt, before, m, pos, rem);
      var status := WriteCodePoint(w, cp);
      WriterSteps(to, cps, cnt, dcnt, before, m, pos, rem, status, dbuf[..], w.Pos(), w.Remaining());
      if status != SUCCESS {
        break;
      }
      cnt := cnt + 1;
    }
  }

  // After k code points: how much of the destination is written, how much is left, what is still to come.
  ghost predicate WriterInv(to: Width, cps: seq<u32bits>, k: nat, dcnt: int, before: seq<u32bits>,
                            m: seq<u32bits>, pos: nat, remaining: int)
  {
    && k <= |cps|
    && FitCount(to, cps, dcnt) == k + FitCount(to, cps[k..], remaining)
    && pos == |EncodeAll(to, cps[..k])| <= |before|
    && remaining == Left(dcnt, pos) && (dcnt >= 0 ==> pos <= dcnt)
    && m == EncodeAll(to, cps[..k]) + before[pos..]
  }

  lemma WriterStarts(to: Width, cps: seq<u32bits>, dcnt: int, before: seq<u32bits>)
    ensures WriterInv(to, cps, 0, dcnt, before, before, 0, dcnt)
  {
    assert cps[0..] == cps && cps[..0] == [];
  }

  lemma WriterReady(to: Width, cps: seq<u32bits>, k: nat, dcnt: int, before: seq<u32bits>,
                    m: seq<u32bits>, pos: nat, remaining: int)
    requires k < |cps| && Roomy(to, cps, |before|, dcnt)
    requires WriterInv(to, cps, k, dcnt, before, m, pos, remaining)
    ensures Writable(to, cps[k], |before|, pos, remaining)
  {
    hide Encode;
    NextFits(to, cps, k, remaining);
    PrefixNoLonger(to, cps, k + 1);
  }

  lemma WriterSteps(to: Width, cps: seq<u32bits>, k: nat, dcnt: int, before: seq<u32bits>,
                    m: seq<u32bits>, pos: nat, remaining: int,
                    status: u32bits, n: seq<u32bits>, pos': nat, remaining': int)
    requires k < |cps| && WriterInv(to, cps, k, dcnt, before, m, pos, remaining)
    requires Wrote(to, cps[k], m, pos, remaining, status, n, pos', remaining')
    ensures status == SUCCESS ==> WriterInv(to, cps, k + 1, dcnt, before, n, pos', remaining')
    ensures status != SUCCESS ==>
      k == FitCount(to, cps, dcnt) && Filled(to, cps, k, dcnt, before, n)
  {
    hide Encode;
    NextFits(to, cps, k, remaining);
    if Fits(to, cps[k], remaining) {
      FilledStep(to, cps, k, before, m, n);
    }
  }

  lemma WriterFinishes(to: Width, cps: seq<u32bits>, dcnt: int, before: seq<u32bits>,
                       m: seq<u32bits>, pos: nat, remaining: int)
    requires WriterInv(to, cps, |cps|, dcnt, before, m, pos, remaining) && Roomy(to, cps, |before|, dcnt)
    ensures FitCount(to, cps, dcnt) == |cps|
    ensures remaining != 0 ==> pos < |m| && |m| == |before|
    ensures Filled(to, cps, |cps|, dcnt, before, if remaining != 0 then m[pos := 0] else m)
  {
    hide Encode;
    assert cps[..|cps|] == cps;
    if remaining != 0 {
      var e := EncodeAll(to, cps);
      assert m[pos := 0] == e + [0] + before[|e| + 1..];
    }
  }

  lemma NextFits(to: Width, cps: seq<u32bits>, k: nat, room: int)
    requires k < |cps|
    ensures |EncodeAll(to, cps[..k + 1])| == |EncodeAll(to, cps[..k])| + |Encode(to, cps[k])|
    ensures FitCount(to, cps[k..], room) ==
      if Fits(to, cps[k], room) then 1 + FitCount(to, cps[k + 1..], Spent(room, |Encode(to, cps[k])|)) else 0
  {
    hide Encode;
    assert cps[..k + 1] == cps[..k] + [cps[k]];
    EncodeAllAppend(to, cps[..k], [cps[k]]);
    assert EncodeAll(to, [cps[k]]) == Encode(to, cps[k]) + EncodeAll(to, [cps[k]][1..]);
    assert cps[k..][0] == cps[k] && cps[k..][1..] == cps[k + 1..];
  }
}
