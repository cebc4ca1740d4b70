/** Base64 as section 4 of RFC 4648 describes it, in groups of 24 bits, beside the decoder's own reading. */
module Base64Spec {
  import opened Prelude

  type byte = bv8

  const PAD: byte := 61

  // The alphabet, A to Z, a to z, 0 to 9, plus and slash.
  function Chtab(i: byte): byte
    requires i < 64
  {
    if i < 26 then 65 + i
    else if i < 52 then 97 + (i - 26)
    else if i < 62 then 48 + (i - 52)
    else if i == 62 then 43
    else 47
  }

  // The place of a character in the alphabet; the padding character counts as the first.
  function IdxOfCh(ch: byte): Option<byte> {
    if 65 <= ch <= 90 then Some(ch - 65)
    else if 97 <= ch <= 122 then Some(ch - 97 + 26)
    else if 48 <= ch <= 57 then Some(ch - 48 + 52)
    else if ch == 43 then Some(62)
    else if ch == 47 then Some(63)
    else if ch == PAD then Some(0)
    else None
  }

  lemma ChtabIdx(i: byte)
    requires i < 64
    ensures IdxOfCh(Chtab(i)) == Some(i) && Chtab(i) != PAD
  {
  }

  lemma IdxChtab(ch: byte)
    requires IdxOfCh(ch).Some?
    ensures IdxOfCh(ch).value < 64 && (ch != PAD ==> Chtab(IdxOfCh(ch).value) == ch)
  {
  }

  // Three bytes side by side.
  function Group(a: byte, b: byte, c: byte): bv24 {
    ((a as bv24) << 16) | ((b as bv24) << 8) | (c as bv24)
  }

  // The four six-bit fields of a group, from the left.
  function Sextet(g: bv24, k: nat): (s: byte)
    requires k < 4
    ensures s < 64
  {
    if k == 0 then ((g >> 18) & 63) as byte
    else if k == 1 then ((g >> 12) & 63) as byte
    else if k == 2 then ((g >> 6) & 63) as byte
    else (g & 63) as byte
  }

  lemma Sext(a: byte, b: byte, c: byte)
    ensures Sextet(Group(a, b, c), 0) == (a >> 2) & 0x3f
    ensures Sextet(Group(a, b, c), 1) == ((b >> 4) & 0x0f) | ((a & 0x03) << 4)
    ensures Sextet(Group(a, b, c), 2) == ((c >> 6) & 0x03) | ((b & 0x0f) << 2)
    ensures Sextet(Group(a, b, c), 3) == c & 0x3f
  {
  }

  // A group from its four fields, and its three bytes.
  function Fields(i0: byte, i1: byte, i2: byte, i3: byte): bv24 {
    ((i0 as bv24) << 18) | ((i1 as bv24) << 12) | ((i2 as bv24) << 6) | (i3 as bv24)
  }

  function Octet(g: bv24, k: nat): byte
    requires k < 3
  {
    if k == 0 then ((g >> 16) & 255) as byte
    else if k == 1 then ((g >> 8) & 255) as byte
    else (g & 255) as byte
  }

  // The three bytes as the decoder puts them together from neighbouring fields.
  function FirstOctet(i0: byte, i1: byte): byte {
    (i0 << 2) | ((i1 >> 4) & 0x03)
  }

  function SecondOctet(i1: byte, i2: byte): byte {
    ((i1 & 0x0f) << 4) | ((i2 >> 2) & 0x0f)
  }

  function ThirdOctet(i2: byte, i3: byte): byte {
    ((i2 & 0x03) << 6) | i3
  }

  lemma Octets(i0: byte, i1: byte, i2: byte, i3: byte)
    requires i0 < 64 && i1 < 64 && i2 < 64 && i3 < 64
    ensures Octet(Fields(i0, i1, i2, i3), 0) == FirstOctet(i0, i1)
    ensures Octet(Fields(i0, i1, i2, i3), 1) == SecondOctet(i1, i2)
    ensures Octet(Fields(i0, i1, i2, i3), 2) == ThirdOctet(i2, i3)
  {
  }

  // Splitting a group into fields and putting them together again.
  lemma FieldsOfGroup(a: byte, b: byte, c: byte)
    ensures var g := Group(a, b, c);
      var f := Fields(Sextet(g, 0), Sextet(g, 1), Sextet(g, 2), Sextet(g, 3));
      f == g && Octet(f, 0) == a && Octet(f, 1) == b && Octet(f, 2) == c
  {
  }

  lemma GroupOfFields(i0: byte, i1: byte, i2: byte, i3: byte)
    requires i0 < 64 && i1 < 64 && i2 < 64 && i3 < 64
    ensures var f := Fields(i0, i1, i2, i3);
      var g := Group(Octet(f, 0), Octet(f, 1), Octet(f, 2));
      f == g && Sextet(g, 0) == i0 && Sextet(g, 1) == i1 && Sextet(g, 2) == i2 && Sextet(g, 3) == i3
  {
  }

  // ----- Whole strings -----

  function At(x: seq<byte>, i: nat): byte {
    if i < |x| then x[i] else 0
  }

  // The four characters for the bytes at the front: missing bytes count as zero and their fields are padding.
  function EncodedBlock(x: seq<byte>): (s: seq<byte>)
    requires x != []
    ensures |s| == 4
  {
    var g := Group(At(x, 0), At(x, 1), At(x, 2));
    [Chtab(Sextet(g, 0)), Chtab(Sextet(g, 1)),
     if |x| > 1 then Chtab(Sextet(g, 2)) else PAD,
     if |x| > 2 then Chtab(Sextet(g, 3)) else PAD]
  }

  function Encoded(x: seq<byte>): (s: seq<byte>)
    ensures |s| == (|x| + 2) / 3 * 4
  {
    if x == [] then []
    else if |x| < 3 then EncodedBlock(x)
    else EncodedBlock(x[..3]) + Encoded(x[3..])
  }

  predicate Corrupt(s: seq<byte>)
    requires |s| >= 4
  {
    || IdxOfCh(s[0]).None? || IdxOfCh(s[1]).None? || IdxOfCh(s[2]).None? || IdxOfCh(s[3]).None?
    || s[0] == PAD || s[1] == PAD
  }

  function FieldsOf(s: seq<byte>): bv24
    requires |s| >= 4 && !Corrupt(s)
  {
    Fields(IdxOfCh(s[0]).value, IdxOfCh(s[1]).value, IdxOfCh(s[2]).value, IdxOfCh(s[3]).value)
  }

  // How many bytes the four characters at the front stand for.
  function BlockBytes(s: seq<byte>): (n: nat)
    requires |s| >= 4
    ensures 1 <= n <= 3
  {
    if s[2] == PAD then 1 else if s[3] == PAD then 2 else 3
  }

  function DecodedBlock(s: seq<byte>): (x: seq<byte>)
    requires |s| >= 4 && !Corrupt(s)
    ensures |x| == BlockBytes(s)
  {
    var g := FieldsOf(s);
    if s[2] == PAD then [Octet(g, 0)]
    else if s[3] == PAD then [Octet(g, 0), Octet(g, 1)]
    else [Octet(g, 0), Octet(g, 1), Octet(g, 2)]
  }

  // What the decoder makes of a text: it stops for good at the first block that ends in padding.
  function Decoded(s: seq<byte>): Option<seq<byte>>
    requires |s| % 4 == 0
  {
    if s == [] then Some([])
    else if Corrupt(s) then None
    else if BlockBytes(s) < 3 then Some(DecodedBlock(s))
    else Prepended(DecodedBlock(s), Decoded(s[4..]))
  }

  function Prepended(x: seq<byte>, r: Option<seq<byte>>): Option<seq<byte>> {
    if r.None? then None else Some(x + r.value)
  }

  // The length the decoder announces.
  function DecodedLength(s: seq<byte>): (n: nat)
    requires |s| % 4 == 0
  {
    if s == [] then 0
    else
      |s| / 4 * 3 - (if s[|s| - 1] == PAD then 1 else 0) - (if s[|s| - 2] == PAD then 1 else 0)
  }
}
