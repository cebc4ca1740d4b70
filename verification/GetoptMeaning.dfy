/**
 What one call of the scanner reports, said of the characters of argv and of the option string: which option, which
 argument, which code. 45 is '-', 43 '+', 58 ':', 61 '=' and 63 '?'.
 */
module GetoptMeaning {
  import opened Prelude
  import opened GetoptSpec
  import opened GetoptRoles
  import opened GetoptSplit
  import opened GetoptTheorems

  // ----- The head of the option string -----

  predicate IsMode(c: c8) {
    c == 43 || c == 45 || c == 58
  }

  // The characters from j on hold no sign.
  predicate NoSign(s: seq<c8>, j: nat) {
    forall i :: j <= i < |s| ==> s[i] != 43 && s[i] != 45
  }

  // The first n characters are mode flags: any sign forbids permuting, a last sign of '-' makes operands arguments
  // of an option with code 1, and a colon anywhere changes the code of a missing argument.
  ghost predicate HeadSays(s: seq<c8>, h: Head, n: nat) {
    && n <= |s| && (forall i :: 0 <= i < n ==> IsMode(s[i])) && (n < |s| ==> !IsMode(s[n]))
    && h.opts == s[n..]
    && (h.permute <==> NoSign(s[..n], 0))
    && (h.argOfOne <==> exists j :: 0 <= j < n && s[j] == 45 && NoSign(s[..n], j + 1))
    && (h.missingArg <==> 58 in s[..n])
  }

  lemma {:induction false} LastSignMeans(h: seq<c8>)
    ensures LastSign(h) == 0 <==> NoSign(h, 0)
    ensures LastSign(h) == 45 <==> exists j :: 0 <= j < |h| && h[j] == 45 && NoSign(h, j + 1)
  {
    if h != [] {
      var n := |h| - 1;
      LastSignMeans(h[..n]);
      if IsSign(h[n]) {
        assert !NoSign(h, 0);
        if h[n] == 45 {
          assert NoSign(h, n + 1);
        }
      } else {
        assert NoSign(h, 0) <==> NoSign(h[..n], 0);
        if j :| 0 <= j < n && h[..n][j] == 45 && NoSign(h[..n], j + 1) {
          assert h[j] == 45 && NoSign(h, j + 1);
        }
        if j :| 0 <= j < |h| && h[j] == 45 && NoSign(h, j + 1) {
          assert h[..n][j] == 45 && NoSign(h[..n], j + 1);
        }
      }
    }
  }

  lemma HeadMeans(s: text)
    ensures HeadSays(s, ParsedHead(s), HeadLength(s))
  {
    var n := HeadLength(s);
    LastSignMeans(s[..n]);
    assert |s[..n]| == n;
    if ParsedHead(s).argOfOne {
      var j :| 0 <= j < n && s[..n][j] == 45 && NoSign(s[..n], j + 1);
      assert s[j] == 45;
    }
    if j :| 0 <= j < n && s[j] == 45 && NoSign(s[..n], j + 1) {
      assert s[..n][j] == 45;
    }
  }

  // ----- Short options -----

  // Where c stands first in the option characters, or their number.
  predicate FirstAt(opts: seq<c8>, c: c8, d: nat) {
    d <= |opts| && (forall i :: 0 <= i < d ==> opts[i] != c) && (d < |opts| ==> opts[d] == c)
  }

  predicate ColonAt(opts: seq<c8>, i: nat) {
    i < |opts| && opts[i] == 58
  }

  // The option at offset off of element ind, whose character stands at d of the option characters: one colon behind
  // it there asks for an argument, two allow one.
  predicate ShortSays(args: seq<CStr>, ind: nat, off: nat, g: Grammar, d: nat, o: Outcome)
    requires ind < |args| && off < |args[ind].chars|
  {
    var w := args[ind].chars;
    var opts := g.head.opts;
    var takes := d < |opts| && ColonAt(opts, d + 1);
    var must := takes && !ColonAt(opts, d + 2);
    var inline := off + 1 < |w|;
    var next := ind + 1 < |args| && (must || args[ind + 1].chars == [] || args[ind + 1].chars[0] != 45);
    && o.index == None && o.store == None && !o.permute
    && (takes && inline ==>
          o.code == w[off] as int && o.arg == Some(Cursor(args[ind], off + 1)) && o.ind == ind + 1 && o.cur == None
          && o.opt == None)
    && (takes && !inline && next ==>
          o.code == w[off] as int && o.arg == Some(Cursor(args[ind + 1], 0)) && o.ind == ind + 2 && o.cur == None
          && o.opt == None)
    && (takes && !inline && !next ==>
          o.arg == None && o.ind == ind + 1 && o.cur == None
          && o.code == (if !must then w[off] as int else if g.head.missingArg then 58 else 63)
          && o.opt == if must then Some(w[off]) else None)
    && (!takes ==>
          o.arg == None
          && o.code == (if d < |opts| then w[off] as int else 63)
          && o.opt == (if d < |opts| then None else Some(w[off]))
          && (if inline then o.ind == ind && o.cur == Some(Cursor(args[ind], off + 1))
              else o.ind == ind + 1 && o.cur == None))
  }

  lemma ShortMeans(args: seq<CStr>, ind: nat, off: nat, g: Grammar, d: nat)
    requires ind < |args| && off < |args[ind].chars| && FirstAt(g.head.opts, args[ind].chars[off], d)
    ensures ShortSays(args, ind, off, g, d, ShortStep(args, ind, off, g))
  {
    FirstIs(g.head.opts, args[ind].chars[off], d);
  }

  lemma FirstIs(opts: seq<c8>, c: c8, d: nat)
    requires FirstAt(opts, c, d)
    ensures IndexFrom(opts, c, 0) == d
  {
    var i := IndexFrom(opts, c, 0);
    assert forall j :: 0 <= j < i ==> opts[j] == opts[0..i][j] != c;
  }

  // ----- Long options -----

  // Where the dashes in front end.
  function Dashes(w: seq<c8>): nat {
    if |w| > 1 && w[1] == 45 then 2 else 1
  }

  // The word is its dashes, the key, and behind the first '=' at e, if there is one, the argument.
  predicate KeyEnds(w: seq<c8>, e: nat) {
    && Dashes(w) <= e <= |w| && (forall i :: Dashes(w) <= i < e ==> w[i] != 61)
    && (e < |w| ==> w[e] == 61)
  }

  // The table has n entries before the all-zero one.
  predicate TableEnds(l: seq<XOption>, n: nat) {
    && n < |l| && l[n] == XOption(None, 0, None, 0)
    && forall i :: 0 <= i < n ==> l[i] != XOption(None, 0, None, 0)
  }

  predicate Names(x: XOption, key: seq<c8>) {
    x.name.Some? && x.name.value == key
  }

  predicate Abbreviates(x: XOption, key: seq<c8>) {
    x.name.Some? && |key| <= |x.name.value| && x.name.value[..|key|] == key
  }

  // What the first n entries have for a key: the first exact name, else the only name the key abbreviates.
  ghost predicate Chosen(l: seq<XOption>, n: nat, key: seq<c8>, m: Match)
    requires n <= |l|
  {
    match m
    case NoMatch => forall j :: 0 <= j < n ==> !Abbreviates(l[j], key)
    case Found(i) =>
      && i < n && Abbreviates(l[i], key)
      && ((Names(l[i], key) && forall j :: 0 <= j < i ==> !Names(l[j], key))
          || (forall j :: 0 <= j < n && j != i ==> !Abbreviates(l[j], key)))
    case Ambiguous =>
      && (forall j :: 0 <= j < n ==> !Names(l[j], key))
      && exists a, b :: 0 <= a < b < n && Abbreviates(l[a], key) && Abbreviates(l[b], key)
  }

  // There is one such choice, and the lookup makes it.
  lemma LookupChooses(l: seq<XOption>, n: nat, key: seq<c8>, m: Match)
    requires TableEnds(l, n)
    ensures Chosen(l, n, key, m) <==> Lookup(l, key) == m
  {
    hide LookupFrom;
    Entries(l, n);
    TerminatedAt(l, n);
    LookupIgnoresRest(l, n, key, 0, NoMatch);
    LookupMeans(l[..n + 1], key);
    Entries(l[..n + 1], n);
    SelectsChooses(l, n, key, Lookup(l, key));
    if Chosen(l, n, key, m) {
      OneChoice(l, n, key, m, Lookup(l, key));
    }
  }

  lemma TerminatedAt(l: seq<XOption>, n: nat)
    requires TableEnds(l, n)
    ensures Terminated(l[..n + 1])
  {
  }

  lemma {:induction false} LookupIgnoresRest(l: seq<XOption>, n: nat, key: seq<c8>, i: nat, before: Match)
    requires TableEnds(l, n) && i <= n
    ensures LookupFrom(l[..n + 1], key, i, before) == LookupFrom(l, key, i, before)
    decreases n - i
  {
    if i < n && !Exact(l[i], key) {
      LookupIgnoresRest(l, n, key, i + 1,
                        if !Hit(l[i], key) then before else if before == NoMatch then Found(i) else Ambiguous);
    }
  }

  lemma SelectsChooses(l: seq<XOption>, n: nat, key: seq<c8>, m: Match)
    requires TableEnds(l, n) && EntryCount(l[..n + 1]) == n && Selects(l[..n + 1], key, m)
    ensures Chosen(l, n, key, m)
  {
    forall j | 0 <= j < n
      ensures Abbreviates(l[j], key) == Hit(l[..n + 1][j], key) && Names(l[j], key) == Exact(l[..n + 1][j], key)
    {
    }
  }

  lemma OneChoice(l: seq<XOption>, n: nat, key: seq<c8>, m: Match, m': Match)
    requires n <= |l| && Chosen(l, n, key, m) && Chosen(l, n, key, m')
    ensures m == m'
  {
  }

  // The long option word at element ind, its key ending at e, for which the table has m: a required argument is
  // what is behind the '=', or the next element; an optional one only what is behind the '='.
  predicate LongSays(args: seq<CStr>, ind: nat, g: Grammar, e: nat, m: Match, o: Outcome)
    requires ind < |args| && g.longopts.Some? && (m.Found? ==> m.i < |g.longopts.value|)
  {
    && o.cur == None && o.opt == None && !o.permute
    && if !m.Found? then
         o.code == 63 && o.arg == None && o.ind == ind + 1 && o.index == None && o.store == None
       else
         var x := g.longopts.value[m.i];
         var inline := e < |args[ind].chars|;
         var missing := x.hasArg == 1 && !inline && ind + 1 == |args|;
         && o.index == Some(m.i)
         && o.arg == (if (x.hasArg == 1 || x.hasArg == 2) && inline then Some(Cursor(args[ind], e + 1))
                      else if x.hasArg == 1 && !missing then Some(Cursor(args[ind + 1], 0))
                      else None)
         && o.ind == (if x.hasArg == 1 && !inline && !missing then ind + 2 else ind + 1)
         && (missing ==> o.code == (if g.head.missingArg then 58 else 63) && o.store == None)
         && (!missing && x.flag == None ==> o.code == x.val && o.store == None)
         && (!missing && x.flag != None ==> o.code == 0 && o.store == Some(m.i))
  }

  // A word is tried as a long option if there is a table and it has two dashes, or one is enough.
  predicate TriedLong(w: CStr, g: Grammar) {
    g.longopts.Some? && (Dashes(w.chars) == 2 || g.only)
  }

  lemma LongMeans(args: seq<CStr>, ind: nat, g: Grammar, n: nat, e: nat, m: Match)
    requires ind < |args| && IsWord(args[ind]) && TriedLong(args[ind], g) && TableEnds(g.longopts.value, n)
    requires KeyEnds(args[ind].chars, e) && Chosen(g.longopts.value, n, args[ind].chars[Dashes(args[ind].chars)..e], m)
    ensures m == NoMatch && g.only ==> LongStep(args, ind, g) == None
    ensures !(m == NoMatch && g.only) ==>
      LongStep(args, ind, g).Some? && LongSays(args, ind, g, e, m, LongStep(args, ind, g).value)
    ensures var w := args[ind].chars;
      e < |w| ==> w == w[..Dashes(w)] + w[Dashes(w)..e] + [61] + w[e + 1..]
  {
    hide LookupFrom, Chosen;
    var w := args[ind].chars;
    KeyIs(args[ind], e);
    LookupChooses(g.longopts.value, n, w[Dashes(w)..e], m);
    LookupInside(g.longopts.value, w[Dashes(w)..e], 0, NoMatch);
  }

  lemma KeyIs(w: CStr, e: nat)
    requires IsWord(w) && KeyEnds(w.chars, e)
    ensures WordStart(w) == Dashes(w.chars) && IndexFrom(w.chars, EQUALS, WordStart(w)) == e
    ensures Key(w) == w.chars[Dashes(w.chars)..e]
  {
    var i := IndexFrom(w.chars, EQUALS, WordStart(w));
    assert forall j :: WordStart(w) <= j < i ==> w.chars[j] == w.chars[WordStart(w)..i][j - WordStart(w)] != EQUALS;
  }

  // ----- A whole call -----

  predicate Operand(e: CStr) {
    e.chars == [] || e.chars[0] != 45
  }

  predicate LoneDash(e: CStr) {
    e.chars == [45] || e.chars == [45, 45]
  }

  // Where the scan from ind stops: at the first element that is no operand, if operands are skipped.
  predicate StopsAt(args: seq<CStr>, ind: nat, cur: Option<Cursor>, g: Grammar, k: nat) {
    && ind <= k <= |args|
    && (cur.Some? || g.head.argOfOne || !g.head.permute ==> k == ind)
    && (cur == None && !g.head.argOfOne && g.head.permute ==>
          (forall i :: ind <= i < k ==> Operand(args[i])) && (k < |args| ==> !Operand(args[k])))
  }

  // What a call reports that starts inside a word, or stops at element k.
  ghost predicate CallSays(args: seq<CStr>, cur: Option<Cursor>, g: Grammar, k: nat, o: Outcome)
    requires k <= |args| && (cur.Some? ==> k < |args| && InRange(cur, args[k]))
  {
    if k == |args| then
      o == Outcome(-1, |args|, None, None, None, None, None, g.head.permute)
    else if cur.Some? then
      forall d :: FirstAt(g.head.opts, args[k].chars[cur.value.off], d) ==> ShortSays(args, k, cur.value.off, g, d, o)
    else if Operand(args[k]) then
      if g.head.argOfOne then o == Outcome(1, k + 1, None, Some(Cursor(args[k], 0)), None, None, None, false)
      else o == Outcome(-1, k, None, None, None, None, None, false)
    else if LoneDash(args[k]) then
      o == Outcome(-1, k + 1, None, None, None, None, None, g.head.permute)
    else
      WordSays(args, k, g, o)
  }

  // An option word from its start: long if it is to be tried as one and the table, or the lack of an alternative,
  // settles it; else its first character is a short option.
  ghost predicate WordSays(args: seq<CStr>, k: nat, g: Grammar, o: Outcome)
    requires k < |args|
  {
    var w := args[k].chars;
    var off := Dashes(w);
    && (TriedLong(args[k], g) ==> forall n: nat, e: nat, m: Match :: LongOrShort(args, k, g, n, e, m, o))
    && (!TriedLong(args[k], g) ==> ShortFrom(args, k, off, g, o))
  }

  ghost predicate LongOrShort(args: seq<CStr>, k: nat, g: Grammar, n: nat, e: nat, m: Match, o: Outcome)
    requires k < |args| && TriedLong(args[k], g)
  {
    var w := args[k].chars;
    TableEnds(g.longopts.value, n) && KeyEnds(w, e) && Chosen(g.longopts.value, n, w[Dashes(w)..e], m) ==>
      if m == NoMatch && g.only then ShortFrom(args, k, Dashes(w), g, o) else LongSays(args, k, g, e, m, o)
  }

  ghost predicate ShortFrom(args: seq<CStr>, k: nat, off: nat, g: Grammar, o: Outcome)
    requires k < |args|
  {
    && off < |args[k].chars|
    && forall d :: FirstAt(g.head.opts, args[k].chars[off], d) ==> ShortSays(args, k, off, g, d, o)
  }

  lemma ShortFromStep(args: seq<CStr>, k: nat, off: nat, g: Grammar)
    requires k < |args| && off < |args[k].chars|
    ensures ShortFrom(args, k, off, g, ShortStep(args, k, off, g))
  {
    hide ShortSays, ShortStep;
    forall d | FirstAt(g.head.opts, args[k].chars[off], d)
      ensures ShortSays(args, k, off, g, d, ShortStep(args, k, off, g))
    {
      ShortMeans(args, k, off, g, d);
    }
  }

  lemma WordMeans(args: seq<CStr>, k: nat, g: Grammar)
    requires k < |args| && IsWord(args[k]) && WellFormed(g)
    ensures WordSays(args, k, g, WordStep(args, k, None, g))
  {
    hide ShortSays, ShortStep, LongStep, ShortFrom, LongOrShort;
    var w := args[k].chars;
    var off := Dashes(w);
    assert WordStart(args[k]) == off < |w|;
    ShortFromStep(args, k, off, g);
    if TriedLong(args[k], g) {
      forall n: nat, e: nat, m: Match
        ensures LongOrShort(args, k, g, n, e, m, WordStep(args, k, None, g))
      {
        LongOrShortMeans(args, k, g, n, e, m);
      }
    }
  }

  lemma LongOrShortMeans(args: seq<CStr>, k: nat, g: Grammar, n: nat, e: nat, m: Match)
    requires k < |args| && IsWord(args[k]) && WellFormed(g) && TriedLong(args[k], g)
    ensures LongOrShort(args, k, g, n, e, m, WordStep(args, k, None, g))
  {
    hide ShortSays, ShortStep, LongSays, LongStep, Chosen, ShortFrom;
    var w := args[k].chars;
    if TableEnds(g.longopts.value, n) && KeyEnds(w, e) && Chosen(g.longopts.value, n, w[Dashes(w)..e], m) {
      LongMeans(args, k, g, n, e, m);
      ChosenInside(g.longopts.value, n, w[Dashes(w)..e], m);
      ShortFromStep(args, k, Dashes(w), g);
    }
  }

  lemma ChosenInside(l: seq<XOption>, n: nat, key: seq<c8>, m: Match)
    requires n <= |l| && Chosen(l, n, key, m)
    ensures m.Found? ==> m.i < |l|
  {
  }

  // One call from element ind, in or before an option word: what it reports and where it leaves the scan.
  lemma {:induction false} CallMeans(args: seq<CStr>, ind: nat, cur: Option<Cursor>, g: Grammar, k: nat)
    requires ind <= |args| && (cur.Some? ==> ind < |args| && InRange(cur, args[ind])) && WellFormed(g)
    requires StopsAt(args, ind, cur, g, k)
    ensures CallSays(args, cur, g, k, Visit(args, ind, cur, g))
    decreases |args| - ind
  {
    hide WordSays, WordStep, ShortSays, ShortStep;
    if ind < |args| {
      if cur.Some? {
        ShortInside(args, ind, cur, g);
      } else if ind < k {
        CallMeans(args, ind + 1, None, g, k);
      } else if !Operand(args[ind]) && !LoneDash(args[ind]) {
        WordMeans(args, ind, g);
      }
    }
  }

  lemma ShortInside(args: seq<CStr>, k: nat, cur: Option<Cursor>, g: Grammar)
    requires k < |args| && cur.Some? && InRange(cur, args[k])
    ensures WordStep(args, k, cur, g) == ShortStep(args, k, cur.value.off, g)
    ensures ShortFrom(args, k, cur.value.off, g, ShortStep(args, k, cur.value.off, g))
  {
    hide ShortSays, ShortStep;
    ShortFromStep(args, k, cur.value.off, g);
  }

  // What a call reports from index ind, with the position cur saved by the call before: a saved position counts only
  // if it lies in element ind.
  ghost predicate StepSays(args: seq<CStr>, ind: int, cur: Option<Cursor>, g: Grammar, o: Outcome)
    requires ind >= 1
  {
    if ind >= |args| then o == Outcome(-1, |args|, cur, None, None, None, None, g.head.permute)
    else
      var from := if InRange(cur, args[ind]) then cur else None;
      forall k: nat :: StopsAt(args, ind, from, g, k) ==> k <= |args| && CallSays(args, from, g, k, o)
  }

  lemma StepMeans(args: seq<CStr>, ind: int, cur: Option<Cursor>, g: Grammar)
    requires ind >= 1 && WellFormed(g)
    ensures StepSays(args, ind, cur, g, Step(args, ind, cur, g))
  {
    hide CallSays, Visit, StopsAt;
    if ind < |args| {
      var from := if InRange(cur, args[ind]) then cur else None;
      forall k: nat | StopsAt(args, ind, from, g, k)
        ensures k <= |args| && (from.Some? ==> k < |args| && InRange(from, args[k]))
          && CallSays(args, from, g, k, Step(args, ind, cur, g))
      {
        StopsInside(args, ind, from, g, k);
        CallMeans(args, ind, from, g, k);
      }
    }
  }

  lemma StopsInside(args: seq<CStr>, ind: nat, cur: Option<Cursor>, g: Grammar, k: nat)
    requires StopsAt(args, ind, cur, g, k)
    ensures k <= |args| && (cur.Some? ==> k == ind)
  {
  }
}
