/** Base64::encode and Base64::decode over byte buffers; a missing buffer or length asks for the size needed. */
module Base64 {
  import opened Prelude
  import opened Base64Spec
  import opened Base64Theorems

  const INT_MAX: int := 0x7fff_ffff
  const ERROR: int := -1

  /** The caller's int behind a pointer. */
  class IntCell {
    var value: int

    constructor (value: int)
      ensures this.value == value
    {
      this.value := value;
    }
  }

  function EncodedLength(n: nat): nat {
    (n + 2) / 3 * 4
  }

  // A block depends on its own three bytes.
  lemma BlockFront(x: seq<byte>)
    requires |x| >= 3
    ensures EncodedBlock(x[..3]) == EncodedBlock(x)
  {
    hide Group, Sextet, Chtab;
  }

  // The four characters of block q encode what starts at byte 3 * q.
  lemma {:induction false} EncodedAt(x: seq<byte>, q: nat)
    requires 3 * q < |x|
    ensures Encoded(x)[4 * q..4 * q + 4] == EncodedBlock(x[3 * q..])
  {
    hide EncodedBlock;
    if |x| < 3 {
      assert x[3 * q..] == x;
    } else {
      BlockFront(x);
      var b, rest := EncodedBlock(x[..3]), Encoded(x[3..]);
      assert Encoded(x) == b + rest;
      if q == 0 {
        assert x[0..] == x;
      } else {
        EncodedAt(x[3..], q - 1);
        assert x[3..][3 * (q - 1)..] == x[3 * q..];
        assert (b + rest)[4 * q..4 * q + 4] == rest[4 * (q - 1)..4 * (q - 1) + 4];
      }
    }
  }

  // The characters written for the bytes at the front of y, as the encoder computes them.
  predicate Written(b: seq<byte>, y: seq<byte>)
    requires y != [] && |b| == 4
  {
    && b[0] == Chtab((y[0] >> 2) & 0x3f)
    && (|y| == 1 ==> b[1] == Chtab((y[0] & 0x03) << 4) && b[2] == PAD && b[3] == PAD)
    && (|y| > 1 ==> b[1] == Chtab(((y[1] >> 4) & 0x0f) | ((y[0] & 0x03) << 4)))
    && (|y| == 2 ==> b[2] == Chtab((y[1] & 0x0f) << 2) && b[3] == PAD)
    && (|y| > 2 ==> b[2] == Chtab(((y[2] >> 6) & 0x03) | ((y[1] & 0x0f) << 2)))
    && (|y| > 2 ==> b[3] == Chtab(y[2] & 0x3f))
  }

  lemma BlockChars(y: seq<byte>)
    requires y != []
    ensures Written(EncodedBlock(y), y)
  {
    hide Group, Sextet, Chtab;
    Sext(At(y, 0), At(y, 1), At(y, 2));
    ZeroBits(At(y, 0), At(y, 1));
  }

  lemma ZeroBits(a: byte, b: byte)
    ensures ((0 as byte >> 4) & 0x0f) | ((a & 0x03) << 4) == (a & 0x03) << 4
    ensures ((0 as byte >> 6) & 0x03) | ((b & 0x0f) << 2) == (b & 0x0f) << 2
  {
  }

  lemma EncodedWritten(x: seq<byte>, q: nat)
    requires 3 * q < |x|
    ensures Written(Encoded(x)[4 * q..4 * q + 4], x[3 * q..])
  {
    hide Written, EncodedBlock, Encoded;
    EncodedAt(x, q);
    BlockChars(x[3 * q..]);
  }

  // What the encoder carries from byte i - 1 to byte i inside a block.
  predicate Carried(x: seq<byte>, i: nat, temp: byte) {
    && i <= |x| && temp < 64
    && (i % 3 == 1 ==> temp == (x[i - 1] & 0x03) << 4)
    && (i % 3 == 2 ==> temp == (x[i - 1] & 0x0f) << 2)
  }

  function OutAt(i: nat): nat {
    4 * (i / 3) + i % 3
  }

  lemma OutNext(i: nat)
    ensures OutAt(0) == 0 && OutAt(i + 1) == OutAt(i) + if i % 3 == 2 then 2 else 1
    ensures (i + 1) % 3 == if i % 3 == 2 then 0 else i % 3 + 1
  {
  }

  lemma BlockOf(x: seq<byte>, i: nat)
    requires i < |x|
    ensures var q := i / 3;
      var b, y := Encoded(x)[4 * q..4 * q + 4], x[3 * q..];
      Written(b, y) && y[i % 3] == x[i] && 4 * q + 4 <= |Encoded(x)|
      && (i + 1 == |x| <==> |y| == i % 3 + 1) && (|y| <= 3 ==> 4 * q + 4 == |Encoded(x)|)
  {
    hide Written, Encoded;
    EncodedWritten(x, i / 3);
  }

  // The bytes of a block in turn: what is written for each, and what is carried on.
  lemma FirstOfBlock(x: seq<byte>, i: nat)
    requires i < |x| && i % 3 == 0
    ensures var e, o, temp := Encoded(x), OutAt(i), (x[i] & 0x03) << 4;
      && o < |e| && e[o] == Chtab((x[i] >> 2) & 0x3f) && Carried(x, i + 1, temp)
      && (i + 1 == |x| ==> |e| == o + 4 && e[o + 1] == Chtab(temp) && e[o + 2] == PAD && e[o + 3] == PAD)
  {
    hide Encoded, Chtab;
    BlockOf(x, i);
  }

  lemma SecondOfBlock(x: seq<byte>, i: nat, temp: byte)
    requires i < |x| && i % 3 == 1 && Carried(x, i, temp)
    ensures var e, o, next := Encoded(x), OutAt(i), (x[i] & 0x0f) << 2;
      && o < |e| && ((x[i] >> 4) & 0x0f) | temp < 64
      && e[o] == Chtab(((x[i] >> 4) & 0x0f) | temp) && Carried(x, i + 1, next)
      && (i + 1 == |x| ==> |e| == o + 3 && e[o + 1] == Chtab(next) && e[o + 2] == PAD)
  {
    hide Encoded, Chtab;
    BlockOf(x, i);
  }

  lemma ThirdOfBlock(x: seq<byte>, i: nat, temp: byte)
    requires i < |x| && i % 3 == 2 && Carried(x, i, temp)
    ensures var e, o := Encoded(x), OutAt(i);
      && o + 1 < |e| && ((x[i] >> 6) & 0x03) | temp < 64
      && e[o] == Chtab(((x[i] >> 6) & 0x03) | temp) && e[o + 1] == Chtab(x[i] & 0x3f) && Carried(x, i + 1, temp)
      && (i + 1 == |x| ==> |e| == o + 2)
  {
    hide Encoded, Chtab;
    BlockOf(x, i);
  }

  // Fills exactly EncodedLength(inputlen) characters of a buffer that is large enough.
  method Encode(input: array<byte>, inputlen: int, output: array?<byte>, outputlen: IntCell?) returns (r: int)
    requires inputlen <= input.Length && output != input
    requires 0 <= inputlen ==> EncodedLength(inputlen) <= INT_MAX
    requires output != null && outputlen != null ==> outputlen.value <= output.Length
    modifies output, outputlen
    ensures r < 0 <==>
      inputlen < 0 || (output != null && outputlen != null && old(outputlen.value) < (inputlen + 2) / 3 * 4)
    ensures r < 0 ==> r == -1
    ensures inputlen < 0 ==> r == ERROR
    ensures inputlen >= 0 && (output == null || outputlen == null) ==> r == EncodedLength(inputlen)
    ensures inputlen >= 0 && output != null && outputlen != null ==>
      && (old(outputlen.value) < EncodedLength(inputlen) ==> r == ERROR)
      && (old(outputlen.value) >= EncodedLength(inputlen) ==>
            && r == EncodedLength(inputlen)
            && output[..r] == Encoded(old(input[..inputlen]))
            && output[r..] == old(output[r..]))
    ensures output != null && (inputlen < 0 || r == ERROR || outputlen == null) ==> output[..] == old(output[..])
    ensures outputlen != null ==>
      outputlen.value == if inputlen >= 0 && (output == null || old(outputlen.value) < EncodedLength(inputlen))
                         then EncodedLength(inputlen) else old(outputlen.value)
  {
    if inputlen < 0 {
      return ERROR;
    }
    var enclen := (inputlen + 2) / 3 * 4;
    if outputlen == null || output == null {
      if outputlen != null {
        outputlen.value := enclen;
      }
      return enclen;
    }
    if outputlen.value < enclen {
      outputlen.value := enclen;
      return ERROR;
    }
    EncodeLoop(input, inputlen, output);
    r := enclen;
  }

  // Stores one more character of e and moves on.
  method Put(output: array<byte>, outidx: nat, ch: byte, ghost e: seq<byte>) returns (next: nat)
    requires outidx < output.Length && outidx < |e| && output[..outidx] == e[..outidx] && ch == e[outidx]
    modifies output
    ensures next == outidx + 1 && output[..next] == e[..next]
    ensures forall k :: next <= k < output.Length ==> output[k] == old(output[k])
  {
    output[outidx] := ch;
    next := outidx + 1;
  }

  method EncodeLoop(input: array<byte>, inputlen: nat, output: array<byte>)
    requires inputlen <= input.Length && output != input && EncodedLength(inputlen) <= output.Length
    modifies output
    ensures output[..EncodedLength(inputlen)] == Encoded(input[..inputlen])
    ensures output[EncodedLength(inputlen)..] == old(output[EncodedLength(inputlen)..])
  {
    hide Encoded, Chtab, Carried, OutAt;
    var enclen := EncodedLength(inputlen);
    ghost var x := input[..inputlen];
    ghost var e := Encoded(x);
    OutNext(0);
    var outidx, inidx := 0, 0;
    var temp: byte := 0;
    while outidx < enclen
      invariant outidx <= enclen && output[..outidx] == e[..outidx]
      invariant forall k :: enclen <= k < output.Length ==> output[k] == old(output[k])
      invariant outidx < enclen ==> inidx < inputlen && outidx == OutAt(inidx)
      invariant inidx % 3 != 0 ==> Carried(x, inidx, temp)
      decreases enclen - outidx
    {
      var ch := input[inidx];
      var mod := inidx % 3;
      OutNext(inidx);
      if mod == 0 {
        FirstOfBlock(x, inidx);
        outidx := Put(output, outidx, Chtab((ch >> 2) & 0x3f), e);
        temp := (ch & 0x03) << 4;
      } else if mod == 1 {
        SecondOfBlock(x, inidx, temp);
        outidx := Put(output, outidx, Chtab(((ch >> 4) & 0x0f) | temp), e);
        temp := (ch & 0x0f) << 2;
      } else {
        ThirdOfBlock(x, inidx, temp);
        outidx := Put(output, outidx, Chtab(((ch >> 6) & 0x03) | temp), e);
        outidx := Put(output, outidx, Chtab(ch & 0x3f), e);
      }
      inidx := inidx + 1;
      if inidx >= inputlen && mod != 2 {
        outidx := Put(output, outidx, Chtab(temp), e);
        outidx := Put(output, outidx, PAD, e);
        if mod == 0 {
          outidx := Put(output, outidx, PAD, e);
        }
      }
    }
  }

  // ----- Decoding -----

  // The block at inidx has room in the announced length, behind what the blocks before it give at most.
  lemma RoomForBlock(s: seq<byte>, inidx: nat)
    requires |s| % 4 == 0 && inidx % 4 == 0 && inidx < |s|
    ensures var t := s[inidx..];
      var outidx := inidx / 4 * 3;
      outidx <= DecodedLength(s) && (!Corrupt(t) ==> outidx + BlockBytes(t) <= DecodedLength(s))
  {
    hide IdxOfCh;
    var t := s[inidx..];
    assert t[0] == s[inidx] && t[1] == s[inidx + 1] && t[2] == s[inidx + 2] && t[3] == s[inidx + 3];
  }

  // One block more: s has been decoded to done, up to t.
  lemma DecodedStep(s: seq<byte>, t: seq<byte>, done: seq<byte>)
    requires |s| % 4 == 0 && |t| % 4 == 0 && t != [] && Decoded(s) == Prepended(done, Decoded(t))
    ensures Corrupt(t) ==> Decoded(s) == None
    ensures !Corrupt(t) && BlockBytes(t) < 3 ==> Decoded(s) == Some(done + DecodedBlock(t))
    ensures !Corrupt(t) && BlockBytes(t) == 3 ==>
      Decoded(s) == Prepended(done + DecodedBlock(t), Decoded(t[4..]))
  {
    hide Corrupt, Decoded, DecodedBlock, BlockBytes, Prepended;
    DecodedUnfolds(t);
    PrependedNone(done);
    if !Corrupt(t) {
      PrependedTwice(done, DecodedBlock(t), Decoded(t[4..]));
    }
  }

  lemma DecodedUnfolds(t: seq<byte>)
    requires |t| >= 4 && |t| % 4 == 0
    ensures Decoded(t) ==
      if Corrupt(t) then None
      else if BlockBytes(t) < 3 then Some(DecodedBlock(t))
      else Prepended(DecodedBlock(t), Decoded(t[4..]))
  {
    hide Corrupt, DecodedBlock, BlockBytes, Prepended;
  }

  lemma PrependedNone(x: seq<byte>)
    ensures Prepended(x, None) == None
  {
  }

  lemma PrependedTwice(x: seq<byte>, y: seq<byte>, r: Option<seq<byte>>)
    ensures Prepended(x, Prepended(y, r)) == Prepended(x + y, r)
    ensures Prepended(x, Some(y)) == Some(x + y)
  {
    if r.Some? {
      assert x + (y + r.value) == x + y + r.value;
    }
  }

  lemma BlockOctets(t: seq<byte>)
    requires |t| >= 4 && !Corrupt(t)
    ensures var i0, i1, i2, i3 :=
        IdxOfCh(t[0]).value, IdxOfCh(t[1]).value, IdxOfCh(t[2]).value, IdxOfCh(t[3]).value;
      var o0, o1, o2 := FirstOctet(i0, i1), SecondOctet(i1, i2), ThirdOctet(i2, i3);
      DecodedBlock(t) ==
        if t[2] == PAD then [o0] else if t[3] == PAD then [o0] + [o1] else [o0] + [o1] + [o2]
  {
    hide IdxOfCh, Fields, Octet, FirstOctet, SecondOctet, ThirdOctet;
    IdxChtab(t[0]);
    IdxChtab(t[1]);
    IdxChtab(t[2]);
    IdxChtab(t[3]);
    Octets(IdxOfCh(t[0]).value, IdxOfCh(t[1]).value, IdxOfCh(t[2]).value, IdxOfCh(t[3]).value);
  }

  lemma StartDecoding(s: seq<byte>)
    requires |s| % 4 == 0
    ensures Decoded(s) == Prepended([], Decoded(s[0..])) && Decoded([]) == Some([])
  {
    assert s[0..] == s;
    if Decoded(s).Some? {
      assert [] + Decoded(s).value == Decoded(s).value;
    }
  }

  // The text and the buffer may be the same array. On corrupt text the blocks before it are already written.
  method Decode(input: array<byte>, inputlen: int, output: array?<byte>, outputlen: IntCell?) returns (r: int)
    requires inputlen <= input.Length
    requires output != null && outputlen != null ==> outputlen.value <= output.Length
    modifies output, outputlen
    ensures inputlen < 0 || inputlen % 4 != 0 ==> r == -1
    ensures inputlen >= 0 && inputlen % 4 == 0 ==>
      var s := old(input[..inputlen]);
      r < 0 <==> output != null && outputlen != null && (old(outputlen.value) < DecodedLength(s) || CorruptText(s))
    ensures r < 0 ==> r == -1
    ensures inputlen < 0 || inputlen % 4 != 0 ==>
      r == ERROR && (output != null ==> output[..] == old(output[..])) && (outputlen != null ==> unchanged(outputlen))
    ensures inputlen >= 0 && inputlen % 4 == 0 ==>
      var s := old(input[..inputlen]);
      var declen := DecodedLength(s);
      if output == null || outputlen == null then
        && r == declen
        && (output != null ==> output[..] == old(output[..]))
        && (outputlen != null ==> outputlen.value == declen)
      else if old(outputlen.value) < declen then
        r == ERROR && output[..] == old(output[..]) && outputlen.value == declen
      else
        && unchanged(outputlen)
        && (Decoded(s) == None ==> r == ERROR && output[declen..] == old(output[declen..]))
        && (Decoded(s).Some? ==>
              && r == |Decoded(s).value| <= declen
              && output[..r] == Decoded(s).value && output[r..] == old(output[r..]))
  {
    hide CorruptText, Decoded;
    if inputlen < 0 || inputlen % 4 != 0 {
      return ERROR;
    }
    RefusedIffCorrupt(input[..inputlen]);
    var declen := inputlen / 4 * 3;
    if inputlen >= 4 {
      if input[inputlen - 1] == PAD {
        declen := declen - 1;
      }
      if input[inputlen - 2] == PAD {
        declen := declen - 1;
      }
    }
    if outputlen == null || output == null {
      if outputlen != null {
        outputlen.value := declen;
      }
      return declen;
    }
    if outputlen.value < declen {
      outputlen.value := declen;
      return ERROR;
    }
    r := DecodeLoop(input, inputlen, output);
  }

  lemma Concatenated(x: seq<byte>, a: byte, b: byte, c: byte)
    ensures x + ([a] + [b]) == x + [a] + [b]
    ensures x + ([a] + [b] + [c]) == x + [a] + [b] + [c]
  {
  }

  // Stores one more byte behind what is there and moves on.
  method Append(output: array<byte>, outidx: nat, b: byte, ghost done: seq<byte>) returns (next: nat)
    requires outidx < output.Length && output[..outidx] == done
    modifies output
    ensures next == outidx + 1 && output[..next] == done + [b]
    ensures forall k :: 0 <= k < output.Length && k != outidx ==> output[k] == old(output[k])
  {
    output[outidx] := b;
    next := outidx + 1;
  }

  // The four characters at inidx: whether they are corrupt, and if not, how many bytes they have added.
  method DecodeFour(input: array<byte>, inidx: nat, output: array<byte>, outidx: nat)
    returns (corrupt: bool, count: nat)
    requires inidx + 4 <= input.Length && outidx <= output.Length && (input == output ==> outidx <= inidx)
    requires !Corrupt(input[inidx..inidx + 4]) ==> outidx + BlockBytes(input[inidx..inidx + 4]) <= output.Length
    modifies output
    ensures var t := old(input[inidx..inidx + 4]);
      && corrupt == Corrupt(t)
      && count == (if corrupt then 0 else BlockBytes(t))
      && outidx + count <= output.Length
      && (!corrupt ==> output[..outidx + count] == old(output[..outidx]) + DecodedBlock(t))
      && forall k :: outidx + count <= k < output.Length ==> output[k] == old(output[k])
  {
    hide DecodedBlock, IdxOfCh, FirstOctet, SecondOctet, ThirdOctet;
    ghost var t, done := input[inidx..inidx + 4], output[..outidx];
    var ch1, ch2 := IdxOfCh(input[inidx]), IdxOfCh(input[inidx + 1]);
    var ch3, ch4 := IdxOfCh(input[inidx + 2]), IdxOfCh(input[inidx + 3]);
    if ch1.None? || ch2.None? || ch3.None? || ch4.None? || input[inidx] == PAD || input[inidx + 1] == PAD {
      return true, 0;
    }
    BlockOctets(t);
    var o0 := FirstOctet(ch1.value, ch2.value);
    var o1 := SecondOctet(ch2.value, ch3.value);
    var o2 := ThirdOctet(ch3.value, ch4.value);
    Concatenated(done, o0, o1, o2);
    var next := Append(output, outidx, o0, done);
    if input[inidx + 2] == PAD {
      return false, 1;
    }
    next := Append(output, next, o1, done + [o0]);
    if input[inidx + 3] == PAD {
      return false, 2;
    }
    next := Append(output, next, o2, done + [o0] + [o1]);
    return false, 3;
  }

  method DecodeLoop(input: array<byte>, inputlen: nat, output: array<byte>) returns (r: int)
    requires inputlen <= input.Length && inputlen % 4 == 0 && DecodedLength(input[..inputlen]) <= output.Length
    modifies output
    ensures var s := old(input[..inputlen]);
      var declen := DecodedLength(s);
      && (Decoded(s) == None ==> r == ERROR && output[declen..] == old(output[declen..]))
      && (Decoded(s).Some? ==>
            && r == |Decoded(s).value| <= declen
            && output[..r] == Decoded(s).value && output[r..] == old(output[r..]))
  {
    hide Decoded, DecodedBlock, DecodedLength, Corrupt, BlockBytes;
    ghost var s := input[..inputlen];
    ghost var declen := DecodedLength(s);
    var outidx, inidx := 0, 0;
    StartDecoding(s);
    while inidx < inputlen
      invariant inidx <= inputlen && inidx % 4 == 0 && outidx == inidx / 4 * 3 && outidx <= declen
      invariant forall k :: inidx <= k < inputlen ==> input[k] == s[k]
      invariant forall k :: outidx <= k < output.Length ==> output[k] == old(output[k])
      invariant Decoded(s) == Prepended(output[..outidx], Decoded(s[inidx..]))
    {
      RoomForBlock(s, inidx);
      assert s[inidx..][4..] == s[inidx + 4..];
      DecodedStep(s, s[inidx..], output[..outidx]);
      assert input[inidx..inidx + 4] == s[inidx..inidx + 4];
      FourOf(s, inidx);
      var corrupt, count := DecodeFour(input, inidx, output, outidx);
      if corrupt {
        return ERROR;
      }
      outidx := outidx + count;
      if count < 3 {
        return outidx;
      }
      inidx := inidx + 4;
    }
    assert s[inidx..] == [];
    r := outidx;
  }

  lemma FourOf(s: seq<byte>, inidx: nat)
    requires inidx + 4 <= |s|
    ensures var t, b := s[inidx..], s[inidx..inidx + 4];
      Corrupt(t) == Corrupt(b) && BlockBytes(t) == BlockBytes(b) && (!Corrupt(t) ==> DecodedBlock(t) == DecodedBlock(b))
  {
    hide IdxOfCh, Fields, Octet;
    var t, b := s[inidx..], s[inidx..inidx + 4];
    assert t[0] == b[0] && t[1] == b[1] && t[2] == b[2] && t[3] == b[3];
  }
}
