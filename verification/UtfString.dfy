/** to_utf8, to_ucs2 and to_ucs4: conversion between whole strings through a buffer of size * 8 + 1 units. */
module UtfString {
  import opened Prelude
  import opened UtfSpec
  import opened UtfTheorems
  import opened UtfConv

  // A zero-terminated buffer as a string.
  function UpToZero(m: seq<u32bits>): seq<u32bits> {
    if m == [] || m[0] == 0 then [] else [m[0]] + UpToZero(m[1..])
  }

  lemma {:induction false} UpToZeroTerminated(e: seq<u32bits>, rest: seq<u32bits>)
    ensures UpToZero(e + [0] + rest) == UpToZero(e)
  {
    var m := e + [0] + rest;
    if e == [] {
      assert m[0] == 0;
    } else {
      assert m[0] == e[0] && m[1..] == e[1..] + [0] + rest;
      UpToZeroTerminated(e[1..], rest);
    }
  }

  lemma {:induction false} UpToZeroClean(e: seq<u32bits>)
    requires forall i :: 0 <= i < |e| ==> e[i] != 0
    ensures UpToZero(e) == e
  {
    if e != [] {
      UpToZeroClean(e[1..]);
    }
  }

  function UnitSize(w: Width): nat {
    if w == W8 then 1 else if w == W16 then 2 else 4
  }

  function ToString(from: Width, to: Width, src: seq<u32bits>): seq<u32bits>
    requires UnitsOk(from, src)
  {
    UpToZero(EncodeAll(to, ReadAll(from, src, 0, |src|)))
  }

  lemma TranscodeReady(from: Width, to: Width, src: seq<u32bits>, dcnt: int)
    requires UnitsOk(from, src) && (dcnt < 0 || dcnt == 8 * |src| + 1)
    ensures Readable(src, 0, |src|)
    ensures Roomy(to, ReadAll(from, src, 0, |src|), 8 * |src| + 1, dcnt)
    ensures WidthOf(UnitSize(from)) == Some(from) && WidthOf(UnitSize(to)) == Some(to)
    ensures src == [] ==> ToString(from, to, src) == []
  {
    BufferBound(from, to, src);
  }

  // The buffer's size is computed in 32 unsigned bits and passed on as a signed count; a count of 2^31 or
  // more thus arrives negative and means an unbounded destination, which is still large enough.
  method Transcode(src: seq<u32bits>, from: Width, to: Width) returns (result: seq<u32bits>)
    requires UnitsOk(from, src) && |src| * 8 + 1 < 0x1_0000_0000
    ensures result == ToString(from, to, src)
  {
    hide UnitsOk, Filled, ReadAll, EncodeAll, Roomy, Readable, FitCount, UpToZero, ToString, WidthOf, UnitSize;
    result := [];
    if src == [] {
      TranscodeReady(from, to, src, 1);
      return;
    }
    var blen: u32 := |src| * 8 + 1;
    var dcnt := if blen < 0x8000_0000 then blen else blen - 0x1_0000_0000;
    var sbuf := new u32bits[|src|](i requires 0 <= i < |src| => src[i]);
    var buf := new u32bits[blen];
    assert sbuf[..] == src;
    ghost var before := buf[..];
    TranscodeReady(from, to, src, dcnt);
    var n := UtfConvInner(sbuf, buf, UnitSize(from), UnitSize(to), |src|, dcnt);
    BufferFilled(from, to, src, dcnt, n, before, buf[..]);
    if n > 0 {
      result := CString(buf);
    }
  }

  method CString(buf: array<u32bits>) returns (r: seq<u32bits>)
    ensures r == UpToZero(buf[..])
  {
    r := [];
    var i := 0;
    while i < buf.Length && buf[i] != 0
      invariant 0 <= i <= buf.Length
      invariant UpToZero(buf[..]) == r + UpToZero(buf[i..])
    {
      assert buf[i..][1..] == buf[i + 1..];
      r := r + [buf[i]];
      i := i + 1;
    }
  }

  lemma BufferFilled(from: Width, to: Width, src: seq<u32bits>, dcnt: int, n: int,
                     before: seq<u32bits>, after: seq<u32bits>)
    requires UnitsOk(from, src) && |before| == 8 * |src| + 1 && (dcnt < 0 || dcnt == |before|)
    requires n == FitCount(to, ReadAll(from, src, 0, |src|), dcnt)
    requires Filled(to, ReadAll(from, src, 0, |src|), n, dcnt, before, after)
    ensures n == |ReadAll(from, src, 0, |src|)|
    ensures UpToZero(after) == ToString(from, to, src)
    ensures n == 0 ==> ToString(from, to, src) == []
  {
    hide UnitsOk, ReadAll, Encode, Convert;
    var cps := ReadAll(from, src, 0, |src|);
    BufferBound(from, to, src);
    if dcnt < 0 {
      UnboundedFits(to, cps, dcnt);
    } else {
      RoomForAll(to, cps, dcnt);
    }
    assert cps[..n] == cps;
    var e := EncodeAll(to, cps);
    UpToZeroTerminated(e, before[|e| + 1..]);
  }

  // For valid text the result is its encoding in the other form, and converting back restores it.
  lemma StringsRoundTrip(a: Width, b: Width, cps: seq<u32bits>)
    requires AllValid(a, cps) && AllValid(b, cps)
    ensures var u, v := EncodeAll(a, cps), EncodeAll(b, cps);
      && UnitsOk(a, u) && UnitsOk(b, v)
      && ToString(a, b, u) == v && ToString(b, a, v) == u
  {
    StringConverts(a, b, cps);
    StringConverts(b, a, cps);
  }

  lemma StringConverts(a: Width, b: Width, cps: seq<u32bits>)
    requires AllValid(a, cps) && AllValid(b, cps)
    ensures UnitsOk(a, EncodeAll(a, cps)) && ToString(a, b, EncodeAll(a, cps)) == EncodeAll(b, cps)
  {
    SurvivesIffValid(a, cps);
    EncodeAllUnits(b, cps);
    UpToZeroClean(EncodeAll(b, cps));
  }
}
