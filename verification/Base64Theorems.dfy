/** Encoding loses nothing, decoding stays within the length it announces, and canonical text is kept. */
module Base64Theorems {
  import opened Prelude
  import opened Base64Spec

  lemma {:induction false} EncodedBlockDecodes(x: seq<byte>)
    requires x != []
    ensures var s := EncodedBlock(x);
      && !Corrupt(s) && BlockBytes(s) == (if |x| < 3 then |x| else 3)
      && DecodedBlock(s) == if |x| < 3 then x else x[..3]
  {
    hide Group, Sextet, Chtab, Fields, Octet;
    var a, b, c := At(x, 0), At(x, 1), At(x, 2);
    var g := Group(a, b, c);
    ChtabIdx(Sextet(g, 0));
    ChtabIdx(Sextet(g, 1));
    ChtabIdx(Sextet(g, 2));
    ChtabIdx(Sextet(g, 3));
    FieldsOfGroup(a, b, c);
    AbsentFields(a, b, c);
  }

  // The fields of absent bytes are zero, as padding reads.
  lemma AbsentFields(a: byte, b: byte, c: byte)
    ensures c == 0 ==> Sextet(Group(a, b, c), 3) == 0
    ensures b == 0 && c == 0 ==> Sextet(Group(a, b, c), 2) == 0
  {
  }

  lemma {:induction false} RoundTrip(x: seq<byte>)
    ensures Decoded(Encoded(x)) == Some(x)
  {
    hide EncodedBlock, DecodedBlock, BlockBytes, Corrupt;
    if x != [] {
      EncodedBlockDecodes(x);
      var s := Encoded(x);
      if |x| < 3 {
        BlockOnly(s, EncodedBlock(x));
      } else {
        EncodedBlockDecodes(x[..3]);
        RoundTrip(x[3..]);
        assert x[..3][..3] == x[..3];
        assert s[..4] == EncodedBlock(x[..3]) && s[4..] == Encoded(x[3..]);
        BlockOnly(s, EncodedBlock(x[..3]));
        assert x == x[..3] + x[3..];
      }
    }
  }

  // A block is read from four characters, whatever follows them.
  lemma BlockOnly(s: seq<byte>, b: seq<byte>)
    requires |b| == 4 && b <= s
    ensures Corrupt(s) == Corrupt(b) && BlockBytes(s) == BlockBytes(b)
    ensures !Corrupt(s) ==> DecodedBlock(s) == DecodedBlock(b)
  {
    assert s[0] == b[0] && s[1] == b[1] && s[2] == b[2] && s[3] == b[3];
  }

  lemma LengthAdds(b: seq<byte>, rest: seq<byte>)
    requires |b| == 4 && |rest| % 4 == 0 && (rest == [] ==> b[2] != PAD && b[3] != PAD)
    ensures DecodedLength(b + rest) == 3 + DecodedLength(rest)
  {
    var s := b + rest;
    if rest != [] {
      assert s[|s| - 1] == rest[|rest| - 1] && s[|s| - 2] == rest[|rest| - 2];
    }
  }

  lemma BlockPadding(x: seq<byte>)
    requires x != []
    ensures EncodedBlock(x)[2] == PAD <==> |x| < 2
    ensures EncodedBlock(x)[3] == PAD <==> |x| < 3
  {
    hide Group, Sextet, Chtab, IdxOfCh;
    var g := Group(At(x, 0), At(x, 1), At(x, 2));
    ChtabIdx(Sextet(g, 2));
    ChtabIdx(Sextet(g, 3));
  }

  lemma {:induction false} AnnouncesTheLength(x: seq<byte>)
    ensures DecodedLength(Encoded(x)) == |x|
  {
    hide EncodedBlock;
    if |x| >= 3 {
      AnnouncesTheLength(x[3..]);
      BlockPadding(x[..3]);
      LengthAdds(EncodedBlock(x[..3]), Encoded(x[3..]));
    } else if x != [] {
      BlockPadding(x);
    }
  }

  // Whatever the text, what is decoded has room in the announced length.
  lemma {:induction false} DecodedFits(s: seq<byte>)
    requires |s| % 4 == 0 && Decoded(s).Some?
    ensures |Decoded(s).value| <= DecodedLength(s)
  {
    hide IdxOfCh, DecodedBlock;
    if s != [] && BlockBytes(s) == 3 && |s| > 4 {
      DecodedFits(s[4..]);
    }
  }

  // ----- Canonical text -----

  // How much of the end is padding.
  function PadCount(s: seq<byte>): nat
    requires |s| >= 4
  {
    if s[|s| - 1] != PAD then 0 else if s[|s| - 2] != PAD then 1 else 2
  }

  predicate Plain(ch: byte) {
    ch != PAD && IdxOfCh(ch).Some?
  }

  // Section 3.5 of RFC 4648: padding at the end only, and no bit set in it.
  predicate Canonical(s: seq<byte>) {
    && |s| % 4 == 0
    && (s != [] ==>
          var n, p := |s|, PadCount(s);
          && (forall i :: 0 <= i < n - p ==> Plain(s[i]))
          && (p == 1 ==> IdxOfCh(s[n - 2]).value & 0x03 == 0)
          && (p == 2 ==> IdxOfCh(s[n - 3]).value & 0x0f == 0))
  }

  lemma LastBlock(s: seq<byte>)
    requires |s| == 4 && !Corrupt(s)
    ensures EncodedBlock(DecodedBlock(s)) == s <==> Canonical(s)
  {
    hide Group, Sextet, Chtab, Fields, Octet;
    var i0, i1, i2, i3 := IdxOfCh(s[0]).value, IdxOfCh(s[1]).value, IdxOfCh(s[2]).value, IdxOfCh(s[3]).value;
    IdxChtab(s[0]);
    IdxChtab(s[1]);
    IdxChtab(s[2]);
    IdxChtab(s[3]);
    GroupOfFields(i0, i1, i2, i3);
    UnusedBits(i0, i1, i2, i3);
    var x := DecodedBlock(s);
    var g := Group(At(x, 0), At(x, 1), At(x, 2));
    ChtabIdx(Sextet(g, 0));
    ChtabIdx(Sextet(g, 1));
    ChtabIdx(Sextet(g, 2));
    ChtabIdx(Sextet(g, 3));
  }

  // With a byte or two missing, the fields come back exactly if the bits that are dropped are zero.
  lemma UnusedBits(i0: byte, i1: byte, i2: byte, i3: byte)
    requires i0 < 64 && i1 < 64 && i2 < 64 && i3 < 64
    ensures var f := Fields(i0, i1, i2, i3);
      var g := Group(Octet(f, 0), Octet(f, 1), 0);
      Sextet(g, 0) == i0 && Sextet(g, 1) == i1 && (Sextet(g, 2) == i2 <==> i2 & 0x03 == 0)
    ensures var f := Fields(i0, i1, i2, i3);
      var g := Group(Octet(f, 0), 0, 0);
      Sextet(g, 0) == i0 && (Sextet(g, 1) == i1 <==> i1 & 0x0f == 0)
  {
  }

  lemma FullBlock(s: seq<byte>)
    requires |s| >= 4 && !Corrupt(s) && BlockBytes(s) == 3
    ensures EncodedBlock(DecodedBlock(s)) == s[..4]
    ensures Plain(s[0]) && Plain(s[1]) && Plain(s[2]) && Plain(s[3])
  {
    hide Group, Sextet, Chtab, Fields, Octet;
    assert s[..4] == [s[0], s[1], s[2], s[3]];
    IdxChtab(s[0]);
    IdxChtab(s[1]);
    IdxChtab(s[2]);
    IdxChtab(s[3]);
    GroupOfFields(IdxOfCh(s[0]).value, IdxOfCh(s[1]).value, IdxOfCh(s[2]).value, IdxOfCh(s[3]).value);
  }

  lemma CanonicalTail(s: seq<byte>)
    requires |s| > 4 && |s| % 4 == 0
    ensures Canonical(s) <==> Canonical(s[4..]) && forall i :: 0 <= i < 4 ==> Plain(s[i])
  {
    var t := s[4..];
    assert forall i :: 4 <= i < |s| ==> s[i] == t[i - 4];
    assert PadCount(s) == PadCount(t);
  }

  lemma CanonicalEmpty()
    ensures Canonical([])
  {
  }

  lemma CorruptIsNotCanonical(s: seq<byte>)
    requires |s| >= 4 && Corrupt(s)
    ensures !Canonical(s)
  {
  }

  lemma BlockAlone(s: seq<byte>)
    requires |s| == 4 && !Corrupt(s)
    ensures var x := DecodedBlock(s);
      Decoded(s) == Some(x) && Encoded(x) == EncodedBlock(x)
  {
    hide EncodedBlock, IdxOfCh, FieldsOf;
    var x := DecodedBlock(s);
    assert s[4..] == [] && x + [] == x;
    if |x| == 3 {
      assert x[..3] == x && x[3..] == [];
      assert EncodedBlock(x) + [] == EncodedBlock(x);
    }
  }

  lemma FullFirst(s: seq<byte>)
    requires |s| > 4 && |s| % 4 == 0 && !Corrupt(s) && BlockBytes(s) == 3
    ensures Decoded(s).Some? <==> Decoded(s[4..]).Some?
    ensures Decoded(s).Some? ==>
      (Encoded(Decoded(s).value) == s <==> Encoded(Decoded(s[4..]).value) == s[4..])
  {
    hide EncodedBlock, DecodedBlock, Corrupt, BlockBytes;
    FullBlock(s);
    if Decoded(s).Some? {
      var x, rest := DecodedBlock(s), Decoded(s[4..]).value;
      assert (x + rest)[..3] == x && (x + rest)[3..] == rest;
      assert s == s[..4] + s[4..];
      assert Encoded(x + rest) == s[..4] + Encoded(rest);
      assert (s[..4] + Encoded(rest))[4..] == Encoded(rest);
    }
  }

  lemma PaddedFirst(s: seq<byte>)
    requires |s| > 4 && |s| % 4 == 0 && !Corrupt(s) && BlockBytes(s) < 3
    ensures Decoded(s) == Some(DecodedBlock(s)) && |Encoded(DecodedBlock(s))| == 4
    ensures !Plain(s[2]) || !Plain(s[3])
  {
    hide EncodedBlock, IdxOfCh, FieldsOf;
  }

  // Decoding and encoding again gives back the text exactly if it is canonical.
  lemma {:induction false} ReencodedIffCanonical(s: seq<byte>)
    requires |s| % 4 == 0
    ensures Canonical(s) <==> Decoded(s).Some? && Encoded(Decoded(s).value) == s
  {
    hide EncodedBlock, DecodedBlock, Plain, Canonical, Corrupt, BlockBytes;
    if s == [] {
      assert Canonical(s) by {
        CanonicalEmpty();
      }
    } else if Corrupt(s) {
      CorruptIsNotCanonical(s);
    } else if |s| == 4 {
      LastBlock(s);
      BlockAlone(s);
    } else {
      CanonicalTail(s);
      ReencodedIffCanonical(s[4..]);
      if BlockBytes(s) == 3 {
        FullBlock(s);
        FullFirst(s);
      } else {
        PaddedFirst(s);
      }
    }
  }

  lemma CanonicalLength(s: seq<byte>)
    ensures Canonical(s) ==> |s| % 4 == 0
  {
  }

  // What the encoder writes is canonical, and every canonical text is written for some input.
  lemma CanonicalIsImage(s: seq<byte>)
    ensures Canonical(s) <==> exists x :: Encoded(x) == s
  {
    hide Canonical, Encoded, Decoded;
    CanonicalLength(s);
    if Canonical(s) {
      ReencodedIffCanonical(s);
    }
    if x :| Encoded(x) == s {
      RoundTrip(x);
      ReencodedIffCanonical(s);
    }
  }

  // ----- The alphabet, and what is refused -----

  // The eight characters from place i on.
  predicate Row(i: byte, row: string)
    requires i < 57
  {
    |row| == 8
    && row[0] == Chtab(i) as char && row[1] == Chtab(i + 1) as char && row[2] == Chtab(i + 2) as char
    && row[3] == Chtab(i + 3) as char && row[4] == Chtab(i + 4) as char && row[5] == Chtab(i + 5) as char
    && row[6] == Chtab(i + 6) as char && row[7] == Chtab(i + 7) as char
  }

  // Table 1 of RFC 4648.
  lemma AlphabetOfTheStandard()
    ensures Row(0, "ABCDEFGH") && Row(8, "IJKLMNOP")
    ensures Row(16, "QRSTUVWX") && Row(24, "YZabcdef")
    ensures Row(32, "ghijklmn") && Row(40, "opqrstuv")
    ensures Row(48, "wxyz0123") && Row(56, "456789+/")
    ensures PAD as char == '='
  {
    hide Row;
    FirstHalf();
    SecondHalf();
  }

  lemma FirstHalf()
    ensures Row(0, "ABCDEFGH") && Row(8, "IJKLMNOP")
    ensures Row(16, "QRSTUVWX") && Row(24, "YZabcdef")
  {
  }

  lemma SecondHalf()
    ensures Row(32, "ghijklmn") && Row(40, "opqrstuv")
    ensures Row(48, "wxyz0123") && Row(56, "456789+/")
  {
  }

  ghost predicate InAlphabet(ch: byte) {
    exists i: byte :: i < 64 && Chtab(i) == ch
  }

  lemma ReadableIff(ch: byte)
    ensures IdxOfCh(ch).Some? <==> InAlphabet(ch) || ch == 61
  {
    hide Chtab, IdxOfCh;
    if IdxOfCh(ch).Some? {
      IdxChtab(ch);
    }
    if i: byte :| i < 64 && Chtab(i) == ch {
      ChtabIdx(i);
    }
    PaddingReads();
  }

  lemma PaddingReads()
    ensures PAD == 61 && IdxOfCh(61) == Some(0)
  {
  }

  // Block k has a character from outside the alphabet, or padding in front.
  ghost predicate BadBlock(s: seq<byte>, k: nat) {
    && 4 * k + 4 <= |s|
    && ((exists j :: 4 * k <= j < 4 * k + 4 && !InAlphabet(s[j]) && s[j] != 61) || s[4 * k] == 61 || s[4 * k + 1] == 61)
  }

  // Block k ends in no padding, so that decoding goes on behind it.
  predicate GoesOn(s: seq<byte>, k: nat) {
    4 * k + 4 <= |s| && s[4 * k + 2] != 61 && s[4 * k + 3] != 61
  }

  ghost predicate ReachesBlock(s: seq<byte>, k: nat) {
    forall j: nat :: j < k ==> GoesOn(s, j)
  }

  // A text is corrupt if decoding reaches a bad block; what stands behind a padded block does not matter.
  ghost predicate CorruptText(s: seq<byte>) {
    exists k: nat :: BadBlock(s, k) && ReachesBlock(s, k)
  }

  lemma {:induction false} RefusedIffCorrupt(s: seq<byte>)
    requires |s| % 4 == 0
    ensures Decoded(s) == None <==> CorruptText(s)
  {
    hide InAlphabet, DecodedBlock;
    if s != [] {
      FirstBlockBad(s);
      PaddingReads();
      var t := s[4..];
      if Corrupt(s) {
        assert BadBlock(s, 0) && ReachesBlock(s, 0);
      } else if BlockBytes(s) < 3 {
        forall k: nat | BadBlock(s, k) ensures !ReachesBlock(s, k) {
          assert k > 0 && !GoesOn(s, 0);
        }
      } else {
        RefusedIffCorrupt(t);
        LaterBlocks(s);
      }
    }
  }

  lemma FirstBlockBad(s: seq<byte>)
    requires |s| >= 4
    ensures Corrupt(s) <==> BadBlock(s, 0)
  {
    hide InAlphabet, IdxOfCh;
    PaddingReads();
    ReadableIff(s[0]);
    ReadableIff(s[1]);
    ReadableIff(s[2]);
    ReadableIff(s[3]);
  }

  lemma LaterBlocks(s: seq<byte>)
    requires |s| >= 4 && !BadBlock(s, 0) && GoesOn(s, 0)
    ensures CorruptText(s) <==> CorruptText(s[4..])
  {
    hide InAlphabet;
    var t := s[4..];
    forall k: nat ensures BadBlock(t, k) <==> BadBlock(s, k + 1) {
      ShiftedBlock(s, k);
    }
    forall k: nat ensures GoesOn(t, k) <==> GoesOn(s, k + 1) {
    }
    if k: nat :| BadBlock(t, k) && ReachesBlock(t, k) {
      forall j: nat | j < k + 1 ensures GoesOn(s, j) {
        if j > 0 {
          assert GoesOn(t, j - 1);
        }
      }
      assert BadBlock(s, k + 1) && ReachesBlock(s, k + 1);
    }
    if k: nat :| BadBlock(s, k) && ReachesBlock(s, k) {
      forall j: nat | j < k - 1 ensures GoesOn(t, j) {
        assert GoesOn(s, j + 1);
      }
      assert BadBlock(t, k - 1) && ReachesBlock(t, k - 1);
    }
  }

  lemma ShiftedBlock(s: seq<byte>, k: nat)
    requires |s| >= 4
    ensures BadBlock(s[4..], k) <==> BadBlock(s, k + 1)
  {
    hide InAlphabet;
    var t := s[4..];
    if 4 * k + 4 <= |t| {
      assert forall j :: 4 * k <= j < 4 * k + 4 ==> t[j] == s[j + 4];
      if j :| 4 * (k + 1) <= j < 4 * (k + 1) + 4 && !InAlphabet(s[j]) && s[j] != 61 {
        assert t[j - 4] == s[j];
      }
    }
  }
}
