/**
 The encodings and one read of each, in the numbers of the standards: the table of section 3 of RFC 3629, continued
 to five and six bytes as in section 2 of RFC 2279, and the surrogates of section 2 of RFC 2781.
 */
module UtfMeaning {
  import opened Prelude
  import opened UtfSpec
  import opened UtfTheorems

  // ----- Encodings -----

  // How many bytes follow the first.
  function Extra(cp: u32bits): (n: nat)
    ensures n <= 5
  {
    if cp < 0x80 then 0 else if cp < 0x800 then 1 else if cp < 0x10000 then 2 else if cp < 0x200000 then 3
    else if cp < 0x4000000 then 4 else 5
  }

  // The first of n + 1 bytes, with the bits of the code point left of those of the others.
  function Front(cp: u32bits, n: nat): u32bits {
    if n == 0 then cp else if n == 1 then 0xC0 | (cp >> 6) else if n == 2 then 0xE0 | (cp >> 12)
    else if n == 3 then 0xF0 | (cp >> 18) else if n == 4 then 0xF8 | (cp >> 24) else 0xFC | ((cp >> 30) & 1)
  }

  // A byte behind the first, with the last six of the given bits.
  function Six(bits: u32bits): u32bits {
    0x80 | (bits & 0x3F)
  }

  function Others(cp: u32bits, n: nat): (r: seq<u32bits>)
    ensures n <= 5 ==> |r| == n
  {
    if n == 0 then []
    else if n == 1 then [Six(cp)]
    else if n == 2 then [Six(cp >> 6), Six(cp)]
    else if n == 3 then [Six(cp >> 12), Six(cp >> 6), Six(cp)]
    else if n == 4 then [Six(cp >> 18), Six(cp >> 12), Six(cp >> 6), Six(cp)]
    else [Six(cp >> 24), Six(cp >> 18), Six(cp >> 12), Six(cp >> 6), Six(cp)]
  }

  // The two units for a value beyond the basic plane, counted from the end of that plane: ten bits each.
  function High(x: u32bits): u32bits {
    0xD800 + (x >> 10)
  }

  function Low(x: u32bits): u32bits {
    0xDC00 + (x & 0x3FF)
  }

  // What a code point becomes in each of the three forms; of a value of 2^31 or more the highest bit is lost in bytes.
  predicate Becomes(w: Width, cp: u32bits, e: seq<u32bits>) {
    match w
    case W8 => e == [Front(cp, Extra(cp))] + Others(cp, Extra(cp))
    case W16 =>
      e == if cp < 0x10000 then [cp] else if cp < 0x110000 then [High(cp - 0x10000), Low(cp - 0x10000)] else []
    case W32 => e == [cp]
  }

  lemma EncodeMeans(w: Width, cp: u32bits)
    ensures Becomes(w, cp, Encode(w, cp))
  {
    hide Encode8, Front, Others, Extra, High, Low, LeadSurrogate, TrailSurrogate;
    match w {
      case W8 => Encode8Means(cp);
      case W16 => if 0x10000 <= cp < 0x110000 { PairMeans(cp); }
      case W32 =>
    }
  }

  lemma PairMeans(cp: u32bits)
    requires 0x10000 <= cp < 0x110000
    ensures LeadSurrogate(cp) == High(cp - 0x10000) && TrailSurrogate(cp) == Low(cp - 0x10000)
  {
    hide High10, Low10, Based, High, Low, Raised;
    AboveBasicPlane(cp);
    HalvesMean(Above(cp));
  }

  lemma HalvesMean(x: u32bits)
    requires x < 0x100000
    ensures Based(High10(x), 0xD800) == High(x) && Based(Low10(x), 0xDC00) == Low(x)
  {
  }

  lemma Encode8Means(cp: u32bits)
    ensures Encode8(cp) == [Front(cp, Extra(cp))] + Others(cp, Extra(cp))
  {
    hide Extra, TailLength, Front, Continuation, Six, LeadMark, Payload, Shifted;
    var n := TailLength(cp);
    ExtraIs(cp);
    FrontIs(cp);
    ShiftedClosed(cp);
    SixIs(cp);
    SixIs(cp >> 6);
    SixIs(cp >> 12);
    SixIs(cp >> 18);
    SixIs(cp >> 24);
    assert Tail(cp, n) == Others(cp, n);
  }

  lemma ExtraIs(cp: u32bits)
    ensures TailLength(cp) == Extra(cp)
  {
  }

  lemma SixIs(bits: u32bits)
    ensures Continuation(bits) == Six(bits)
  {
  }

  lemma FrontIs(cp: u32bits)
    ensures LeadMark(Extra(cp)) | Payload(Shifted(cp, Extra(cp)), Extra(cp)) == Front(cp, Extra(cp))
  {
    hide Shifted;
    ShiftedClosed(cp);
    FrontFits(cp);
  }

  lemma FrontFits(cp: u32bits)
    ensures cp < 0x80 ==> 0x00 | (cp & 0xFF) == cp
    ensures cp < 0x800 ==> (cp >> 6) & 0x1F == cp >> 6
    ensures cp < 0x10000 ==> (cp >> 12) & 0x0F == cp >> 12
    ensures cp < 0x200000 ==> (cp >> 18) & 0x07 == cp >> 18
    ensures cp < 0x4000000 ==> (cp >> 24) & 0x03 == cp >> 24
  {
  }

  // ----- One read -----

  // How many bytes follow a first one; none may start with a byte of the others, or with 0xFE or 0xFF.
  function Announced(c: u32bits): (n: Option<nat>)
    ensures n.Some? ==> n.value <= 5
  {
    if c < 0x80 then Some(0)
    else if 0xC0 <= c <= 0xDF then Some(1)
    else if 0xE0 <= c <= 0xEF then Some(2)
    else if 0xF0 <= c <= 0xF7 then Some(3)
    else if 0xF8 <= c <= 0xFB then Some(4)
    else if 0xFC <= c <= 0xFD then Some(5)
    else None
  }

  predicate Behind(c: u32bits) {
    0x80 <= c <= 0xBF
  }

  // The n units behind pos are there and are all bytes that follow a first one.
  ghost predicate AllBehind(s: seq<u32bits>, pos: nat, n: nat) {
    pos + n < |s| && forall i :: pos < i <= pos + n ==> Behind(s[i])
  }

  // The bits of the first byte at pos and of the n behind it.
  function Value(s: seq<u32bits>, pos: nat, n: nat): u32bits
    requires pos + n < |s| && n <= 5
  {
    var c := s[pos];
    if n == 0 then c
    else if n == 1 then Value1(c, s[pos + 1])
    else if n == 2 then Value2(c, s[pos + 1], s[pos + 2])
    else if n == 3 then Value3(c, s[pos + 1], s[pos + 2], s[pos + 3])
    else if n == 4 then Value4(c, s[pos + 1], s[pos + 2], s[pos + 3], s[pos + 4])
    else Value5(c, s[pos + 1], s[pos + 2], s[pos + 3], s[pos + 4], s[pos + 5])
  }

  function Value1(c: u32bits, t: u32bits): u32bits {
    ((c - 0xC0) << 6) | (t - 0x80)
  }

  function Value2(c: u32bits, t: u32bits, u: u32bits): u32bits {
    ((c - 0xE0) << 12) | ((t - 0x80) << 6) | (u - 0x80)
  }

  function Value3(c: u32bits, t: u32bits, u: u32bits, v: u32bits): u32bits {
    ((c - 0xF0) << 18) | ((t - 0x80) << 12) | ((u - 0x80) << 6) | (v - 0x80)
  }

  function Value4(c: u32bits, t: u32bits, u: u32bits, v: u32bits, w: u32bits): u32bits {
    ((c - 0xF8) << 24) | ((t - 0x80) << 18) | ((u - 0x80) << 12) | ((v - 0x80) << 6) | (w - 0x80)
  }

  function Value5(c: u32bits, t: u32bits, u: u32bits, v: u32bits, w: u32bits, x: u32bits): u32bits {
    ((c - 0xFC) << 30) | ((t - 0x80) << 24) | ((u - 0x80) << 18) | ((v - 0x80) << 12) | ((w - 0x80) << 6) | (x - 0x80)
  }

  // What is left of a count, which only a positive one is.
  function After(remaining: int, n: nat): int {
    if remaining > 0 then remaining - n else remaining
  }

  // A first byte with its n others: too few units left are the end of the text, and a unit that is none of the
  // others is an error at which the reader stays, the whole form having been counted.
  ghost predicate FormSays(s: seq<u32bits>, pos: nat, remaining: int, n: nat, r: Reading)
    requires n <= 5
  {
    if 0 < remaining <= n then r == Reading(0xFFFFFFFF, pos, remaining)
    else if AllBehind(s, pos, n) then r == Reading(Value(s, pos, n), pos + n + 1, After(remaining, n + 1))
    else
      && r.code == 0xFFFFFFFE && r.remaining == After(remaining, n + 1)
      && pos < r.pos <= pos + n && r.pos < |s| && !Behind(s[r.pos]) && AllBehind(s, pos, r.pos - pos - 1)
  }

  ghost predicate Bytes8Say(s: seq<u32bits>, pos: nat, remaining: int, r: Reading)
    requires pos < |s|
  {
    match Announced(s[pos])
    case None => r == Reading(0xFFFFFFFE, pos, remaining)
    case Some(n) => FormSays(s, pos, remaining, n, r)
  }

  predicate Units16Say(s: seq<u32bits>, pos: nat, remaining: int, r: Reading)
    requires pos < |s|
  {
    var c := s[pos];
    if c < 0xD800 || c > 0xDFFF then r == Reading(c, pos + 1, After(remaining, 1))
    else if c >= 0xDC00 then r == Reading(0xFFFFFFFE, pos, remaining)
    else if remaining == 1 then r == Reading(0xFFFFFFFF, pos, remaining)
    else if pos + 1 < |s| && 0xDC00 <= s[pos + 1] <= 0xDFFF then
      r == Reading(PairValue(c, s[pos + 1]), pos + 2, After(remaining, 2))
    else r == Reading(0xFFFFFFFE, pos + 1, After(remaining, 2))
  }

  function PairValue(c: u32bits, t: u32bits): u32bits {
    0x10000 + ((c - 0xD800) << 10) + (t - 0xDC00)
  }

  // What one read reports: 0xFFFFFFFF is the end of the text, 0xFFFFFFFE an error in it.
  ghost predicate Reports(w: Width, s: seq<u32bits>, pos: nat, remaining: int, r: Reading) {
    if remaining == 0 || (pos < |s| && s[pos] == 0) then r == Reading(0xFFFFFFFF, pos, remaining)
    else
      pos < |s|
      && match w
         case W8 => Bytes8Say(s, pos, remaining, r)
         case W16 => Units16Say(s, pos, remaining, r)
         case W32 => r == Reading(s[pos], pos + 1, After(remaining, 1))
  }

  lemma ReadMeans(w: Width, s: seq<u32bits>, pos: nat, remaining: int)
    requires UnitsOk(w, s) && Readable(s, pos, remaining)
    ensures Reports(w, s, pos, remaining, Read(w, s, pos, remaining))
  {
    hide Bytes8Say, PairValue, FromSurrogates;
    ZeroAheadStep(s, pos);
    if remaining != 0 && s[pos] != 0 {
      match w {
        case W8 => Read8Means(s, pos, remaining);
        case W16 =>
          if 0xD800 <= s[pos] <= 0xDBFF && remaining != 1 {
            assert pos + 1 < |s|;
            PairValueIs(s[pos], s[pos + 1]);
          }
        case W32 =>
      }
    }
  }

  lemma PairValueIs(c: u32bits, t: u32bits)
    requires 0xD800 <= c <= 0xDBFF
    ensures 0xDC00 <= t <= 0xDFFF ==> FromSurrogates(c, t) == PairValue(c, t)
  {
  }

  lemma Read8Means(s: seq<u32bits>, pos: nat, remaining: int)
    requires UnitsOk(W8, s) && Readable(s, pos, remaining) && remaining != 0 && pos < |s| && s[pos] != 0
    ensures Bytes8Say(s, pos, remaining, Read8(s, pos, remaining))
  {
    hide Announced, FollowCount, FormSays, Follow, Payload, Within;
    var c := s[pos];
    AnnouncedIs(c);
    LeadBound(c);
    if Announced(c).Some? {
      ZeroAheadStep(s, pos);
      FormMeans(s, pos, remaining, Announced(c).value);
    }
  }

  lemma AnnouncedIs(c: u32bits)
    requires c < 0x100
    ensures FollowCount(c) == Announced(c)
  {
  }

  lemma BehindIs(c: u32bits)
    requires c < 0x100
    ensures IsContinuation(c) <==> Behind(c)
  {
  }

  // The bits of n units gathered behind those of cp.
  function Gathered(s: seq<u32bits>, pos: nat, n: nat, cp: u32bits): u32bits
    requires pos + n <= |s|
    decreases n
  {
    if n == 0 then cp else Gathered(s, pos + 1, n - 1, Gather(cp, s[pos]))
  }

  lemma {:induction false} FollowMeans(s: seq<u32bits>, pos: nat, n: nat, cp: u32bits, remaining: int)
    requires UnitsOk(W8, s) && n <= 5 && Within(cp, n) && 0 < pos <= |s|
    requires if remaining >= 0 then pos + n <= |s| else ZeroAhead(s, pos)
    ensures var r := Follow(s, pos, n, cp, remaining);
      if pos + n <= |s| && AllBehind(s, pos - 1, n) then r == Reading(Gathered(s, pos, n, cp), pos + n, remaining)
      else
        && r.code == 0xFFFFFFFE && r.remaining == remaining
        && pos <= r.pos < pos + n && r.pos < |s| && !Behind(s[r.pos]) && AllBehind(s, pos - 1, r.pos - pos)
    decreases n
  {
    hide Gather, Behind, IsContinuation, Within;
    if n > 0 {
      ZeroAheadStep(s, pos);
      BehindIs(s[pos]);
      if Behind(s[pos]) {
        NotZero(s[pos]);
        GatherBound(cp, s[pos], n);
        FollowMeans(s, pos + 1, n - 1, Gather(cp, s[pos]), remaining);
      }
    }
  }

  lemma FormMeans(s: seq<u32bits>, pos: nat, remaining: int, n: nat)
    requires UnitsOk(W8, s) && Readable(s, pos, remaining) && remaining != 0 && pos < |s| && s[pos] != 0
    requires FollowCount(s[pos]) == Some(n) && n <= 5
    ensures FormSays(s, pos, remaining, n, Read8(s, pos, remaining))
  {
    hide FollowCount, Payload, Within, Follow, Value;
    ZeroAheadStep(s, pos);
    LeadBound(s[pos]);
    if !(0 < remaining <= n) {
      FollowMeans(s, pos + 1, n, Payload(s[pos], n), Spent(remaining, n + 1));
      if AllBehind(s, pos, n) {
        ValueIs(s, pos, n);
      }
    }
  }

  lemma ValueIs(s: seq<u32bits>, pos: nat, n: nat)
    requires UnitsOk(W8, s) && n <= 5 && AllBehind(s, pos, n) && FollowCount(s[pos]) == Some(n)
    ensures Gathered(s, pos + 1, n, Payload(s[pos], n)) == Value(s, pos, n)
  {
    hide FollowCount, Payload, Gather, Value1, Value2, Value3, Value4, Value5, Behind;
    var c := s[pos];
    if n == 0 {
      GatheredNone(c);
    } else if n == 1 {
      Gathered1(c, s[pos + 1]);
    } else if n == 2 {
      Gathered2(c, s[pos + 1], s[pos + 2]);
    } else if n == 3 {
      Gathered3(c, s[pos + 1], s[pos + 2], s[pos + 3]);
    } else if n == 4 {
      Gathered4(c, s[pos + 1], s[pos + 2], s[pos + 3], s[pos + 4]);
    } else {
      Gathered5(c, s[pos + 1], s[pos + 2], s[pos + 3], s[pos + 4], s[pos + 5]);
    }
  }

  lemma GatheredNone(c: u32bits)
    requires c < 0x100 && FollowCount(c) == Some(0)
    ensures Payload(c, 0) == c
  {
  }

  lemma Gathered1(c: u32bits, t: u32bits)
    requires c < 0x100 && FollowCount(c) == Some(1) && Behind(t)
    ensures Gather(Payload(c, 1), t) == Value1(c, t)
  {
  }

  lemma Gathered2(c: u32bits, t: u32bits, u: u32bits)
    requires c < 0x100 && FollowCount(c) == Some(2) && Behind(t) && Behind(u)
    ensures Gather(Gather(Payload(c, 2), t), u) == Value2(c, t, u)
  {
  }

  lemma Gathered3(c: u32bits, t: u32bits, u: u32bits, v: u32bits)
    requires c < 0x100 && FollowCount(c) == Some(3) && Behind(t) && Behind(u) && Behind(v)
    ensures Gather(Gather(Gather(Payload(c, 3), t), u), v) == Value3(c, t, u, v)
  {
  }

  lemma Gathered4(c: u32bits, t: u32bits, u: u32bits, v: u32bits, w: u32bits)
    requires c < 0x100 && FollowCount(c) == Some(4) && Behind(t) && Behind(u) && Behind(v) && Behind(w)
    ensures Gather(Gather(Gather(Gather(Payload(c, 4), t), u), v), w) == Value4(c, t, u, v, w)
  {
  }

  lemma Gathered5(c: u32bits, t: u32bits, u: u32bits, v: u32bits, w: u32bits, x: u32bits)
    requires c < 0x100 && FollowCount(c) == Some(5)
    requires Behind(t) && Behind(u) && Behind(v) && Behind(w) && Behind(x)
    ensures Gather(Gather(Gather(Gather(Gather(Payload(c, 5), t), u), v), w), x) == Value5(c, t, u, v, w, x)
  {
  }
}
