/** The encoding bit by bit: the bits of the bytes, from the left, six to a character. */
module Base64Bits {
  import opened Prelude
  import opened Base64Spec
  import opened Base64

  // The n-th bit of a byte from the left.
  predicate BitOf(v: byte, n: nat)
    requires n < 8
  {
    v & (if n == 0 then 128 else if n == 1 then 64 else if n == 2 then 32 else if n == 3 then 16
         else if n == 4 then 8 else if n == 5 then 4 else if n == 6 then 2 else 1) != 0
  }

  lemma Bits0(a: byte, b: byte, c: byte)
    ensures var g := Group(a, b, c);
      && BitOf(Sextet(g, 0), 2) == BitOf(a, 0)
      && BitOf(Sextet(g, 0), 3) == BitOf(a, 1)
      && BitOf(Sextet(g, 0), 4) == BitOf(a, 2)
      && BitOf(Sextet(g, 0), 5) == BitOf(a, 3)
      && BitOf(Sextet(g, 0), 6) == BitOf(a, 4)
      && BitOf(Sextet(g, 0), 7) == BitOf(a, 5)
      && BitOf(Sextet(g, 1), 2) == BitOf(a, 6)
      && BitOf(Sextet(g, 1), 3) == BitOf(a, 7)
  {
    hide Group, Sextet;
    Sext(a, b, c);
  }

  lemma Bits1(a: byte, b: byte, c: byte)
    ensures var g := Group(a, b, c);
      && BitOf(Sextet(g, 1), 4) == BitOf(b, 0)
      && BitOf(Sextet(g, 1), 5) == BitOf(b, 1)
      && BitOf(Sextet(g, 1), 6) == BitOf(b, 2)
      && BitOf(Sextet(g, 1), 7) == BitOf(b, 3)
      && BitOf(Sextet(g, 2), 2) == BitOf(b, 4)
      && BitOf(Sextet(g, 2), 3) == BitOf(b, 5)
      && BitOf(Sextet(g, 2), 4) == BitOf(b, 6)
      && BitOf(Sextet(g, 2), 5) == BitOf(b, 7)
  {
    hide Group, Sextet;
    Sext(a, b, c);
  }

  lemma Bits2(a: byte, b: byte, c: byte)
    ensures var g := Group(a, b, c);
      && BitOf(Sextet(g, 2), 6) == BitOf(c, 0)
      && BitOf(Sextet(g, 2), 7) == BitOf(c, 1)
      && BitOf(Sextet(g, 3), 2) == BitOf(c, 2)
      && BitOf(Sextet(g, 3), 3) == BitOf(c, 3)
      && BitOf(Sextet(g, 3), 4) == BitOf(c, 4)
      && BitOf(Sextet(g, 3), 5) == BitOf(c, 5)
      && BitOf(Sextet(g, 3), 6) == BitOf(c, 6)
      && BitOf(Sextet(g, 3), 7) == BitOf(c, 7)
  {
    hide Group, Sextet;
    Sext(a, b, c);
  }

  lemma GroupBits(a: byte, b: byte, c: byte, m: nat, n: nat)
    requires m < 3 && n < 8
    ensures BitOf(Sextet(Group(a, b, c), (8 * m + n) / 6), 2 + (8 * m + n) % 6)
      == BitOf(if m == 0 then a else if m == 1 then b else c, n)
  {
    hide Group, Sextet, BitOf;
    Bits0(a, b, c);
    Bits1(a, b, c);
    Bits2(a, b, c);
  }

  // Bit n of byte i is bit (8i + n) mod 6 of the character at (8i + n) / 6.
  lemma EncodesTheBits(x: seq<byte>, i: nat, n: nat)
    requires i < |x| && n < 8
    ensures var k, r := (8 * i + n) / 6, (8 * i + n) % 6;
      k < |Encoded(x)| && IdxOfCh(Encoded(x)[k]).Some? && BitOf(IdxOfCh(Encoded(x)[k]).value, 2 + r) == BitOf(x[i], n)
  {
    hide Encoded, Group, Sextet, Chtab, IdxOfCh, BitOf;
    var q, m := i / 3, i % 3;
    EncodedAt(x, q);
    var y := x[3 * q..];
    var g := Group(At(y, 0), At(y, 1), At(y, 2));
    GroupBits(At(y, 0), At(y, 1), At(y, 2), m, n);
    var f := (8 * m + n) / 6;
    ChtabIdx(Sextet(g, f));
    assert Encoded(x)[4 * q..4 * q + 4][f] == Encoded(x)[4 * q + f];
  }
}
