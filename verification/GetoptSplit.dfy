/** The state of argv while operands are being taken out of it, and the progress of the scan that drives this. */
module GetoptSplit {
  import opened Prelude
  import opened GetoptSpec
  import opened GetoptRoles

  // mask classifies the elements scanned so far: now starts with the ind kept ones and goes on with what
  // is not yet scanned, and out holds the ones taken out.
  ghost predicate Split(args: seq<CStr>, now: seq<CStr>, ind: int, out: seq<CStr>, mask: seq<bool>) {
    && |mask| <= |args| && 0 <= ind <= |now|
    && now[..ind] == Select(args[..|mask|], mask, false)
    && now[ind..] == args[|mask|..]
    && out == Select(args[..|mask|], mask, true)
  }

  function Falses(k: nat): seq<bool> {
    seq(k, _ => false)
  }

  lemma SplitKeepsOne(args: seq<CStr>, now: seq<CStr>, ind: nat, out: seq<CStr>, mask: seq<bool>)
    requires Split(args, now, ind, out, mask) && ind < |now|
    ensures Split(args, now, ind + 1, out, mask + [false])
  {
    hide Select;
    var j := |mask|;
    SelectMore(args, j, mask, false, false);
    SelectMore(args, j, mask, false, true);
    assert now[ind] == now[ind..][0] == args[j..][0] == args[j];
    assert now[..ind + 1] == now[..ind] + [args[j]];
    assert now[ind + 1..] == now[ind..][1..] == args[j..][1..] == args[j + 1..];
  }

  lemma {:induction false} SplitKeeps(
    args: seq<CStr>, now: seq<CStr>, ind: nat, out: seq<CStr>, mask: seq<bool>, k: nat)
    requires Split(args, now, ind, out, mask) && ind + k <= |now|
    ensures Split(args, now, ind + k, out, mask + Falses(k))
    decreases k
  {
    hide Split;
    if k == 0 {
      assert mask + Falses(0) == mask;
    } else {
      SplitKeepsOne(args, now, ind, out, mask);
      SplitKeeps(args, now, ind + 1, out, mask + [false], k - 1);
      assert mask + [false] + Falses(k - 1) == mask + Falses(k);
    }
  }

  lemma SplitTakesOut(args: seq<CStr>, now: seq<CStr>, ind: nat, out: seq<CStr>, mask: seq<bool>)
    requires Split(args, now, ind, out, mask) && ind < |now|
    ensures Split(args, now[..ind] + now[ind + 1..], ind, out + [now[ind]], mask + [true])
  {
    hide Select;
    var j := |mask|;
    SelectMore(args, j, mask, true, false);
    SelectMore(args, j, mask, true, true);
    assert now[ind] == now[ind..][0] == args[j..][0] == args[j];
    var rest := now[..ind] + now[ind + 1..];
    assert rest[..ind] == now[..ind];
    assert rest[ind..] == now[ind..][1..] == args[j..][1..] == args[j + 1..];
  }

  lemma SplitEnds(args: seq<CStr>, now: seq<CStr>, out: seq<CStr>, mask: seq<bool>)
    requires Split(args, now, |now|, out, mask)
    ensures |mask| == |args| && now + out == Arranged(args, mask) && now == Select(args, mask, false)
  {
    assert now[|now|..] == [];
    assert args[..|args|] == args && now[..|now|] == now;
  }

  lemma SplitStarts(args: seq<CStr>)
    requires |args| >= 1
    ensures Split(args, args, 1, [], [false])
  {
    SelectMore(args, 0, [], false, false);
    SelectMore(args, 0, [], false, true);
    assert [] + [false] == [false];
    assert args[..1] == [args[0]];
    assert args[..0] == [];
  }

  lemma RolesStart(args: seq<CStr>, g: Grammar)
    requires |args| >= 1
    ensures MaskFits(args, [false], g) && Tracking(args, 1, None, g)
  {
    assert RoleOf(args, 0, g) == Program;
  }

  // The bits given so far are those of the roles.
  ghost predicate MaskFits(args: seq<CStr>, mask: seq<bool>, g: Grammar) {
    |mask| <= |args| && forall k :: 0 <= k < |mask| ==> mask[k] == (RoleOf(args, k, g) == Operand)
  }

  lemma MaskComplete(args: seq<CStr>, mask: seq<bool>, g: Grammar)
    requires MaskFits(args, mask, g) && |mask| == |args|
    ensures mask == OperandMask(args, g)
  {
  }

  // The characters the current element still has for the scan.
  function Left(args: seq<CStr>, ind: nat, cur: Option<Cursor>): nat {
    if ind >= |args| then 0
    else if InRange(cur, args[ind]) then |args[ind].chars| - cur.value.off
    else |args[ind].chars| + 1
  }

  ghost predicate Inside(args: seq<CStr>, ind: int, cur: Option<Cursor>) {
    1 <= ind <= |args| && (cur.Some? ==> ind < |args| && InRange(cur, args[ind]))
  }

  // Every call that does not report the end moves on: to a later element, or inside the current one.
  lemma StepMovesOn(args: seq<CStr>, ind: int, cur: Option<Cursor>, g: Grammar)
    requires Inside(args, ind, cur)
    ensures var o := Step(args, ind, cur, g);
      && ind <= o.ind && Inside(args, o.ind, o.cur)
      && (ind == |args| ==> o.code == END && o.arg == None)
      && (o.code != END ==> o.ind > ind || Left(args, o.ind, o.cur) < Left(args, ind, cur))
  {
    if ind < |args| {
      VisitMovesOn(args, ind, cur, g);
    }
  }

  lemma {:induction false} VisitMovesOn(args: seq<CStr>, ind: nat, cur: Option<Cursor>, g: Grammar)
    requires Inside(args, ind, cur)
    ensures var o := Visit(args, ind, cur, g);
      && ind <= o.ind && Inside(args, o.ind, o.cur)
      && (o.code != END ==> o.ind > ind || Left(args, o.ind, o.cur) < Left(args, ind, cur))
    decreases |args| - ind
  {
    hide WordStep, Takes, ShortTakes;
    if ind < |args| {
      if Ready(args, ind, cur) {
        WordAdvances(args, ind, cur, g);
      } else if !StartsDash(args[ind]) && g.head.permute {
        VisitMovesOn(args, ind + 1, None, g);
      }
    }
  }

  // Where the permutation stands before a call of the scanner.
  ghost predicate Progress(args: seq<CStr>, now: seq<CStr>, ind: int, cur: Option<Cursor>, out: seq<CStr>,
                           mask: seq<bool>, g: Grammar) {
    && Inside(now, ind, cur) && !g.head.permute
    && mask != [] && !mask[0] && Split(args, now, ind, out, mask)
    && (Plainspoken(g) ==> MaskFits(args, mask, g) && Tracking(args, |mask|, cur, g))
  }

  // What the permutation has reached when it ends.
  ghost predicate Arrived(
    args: seq<CStr>, after: seq<CStr>, ind: int, arg: Option<Cursor>, mask: seq<bool>, g: Grammar)
  {
    && |mask| == |args| && mask != [] && !mask[0]
    && after == Arranged(args, mask) && ind == |Select(args, mask, false)|
    && (Plainspoken(g) ==> mask == OperandMask(args, g) && arg == None)
  }

  lemma ArrivedMeans(args: seq<CStr>, after: seq<CStr>, ind: int, arg: Option<Cursor>, mask: seq<bool>, g: Grammar)
    requires Arrived(args, after, ind, arg, mask, g)
    ensures |mask| == |args| && mask != [] && !mask[0]
    ensures after == Arranged(args, mask) && ind == |Select(args, mask, false)|
    ensures Plainspoken(g) ==> mask == OperandMask(args, g) && arg == None
  {
  }

  lemma ProgressStarts(args: seq<CStr>, g: Grammar)
    requires |args| >= 1 && !g.head.permute
    ensures Progress(args, args, 1, None, [], [false], g)
  {
    SplitStarts(args);
    RolesStart(args, g);
  }

  // What one call, and the removal that may follow it, do.
  lemma StepProgresses(args: seq<CStr>, now: seq<CStr>, ind: int, cur: Option<Cursor>, out: seq<CStr>,
                       mask: seq<bool>, g: Grammar)
    requires Progress(args, now, ind, cur, out, mask, g)
    ensures ind >= 1
    ensures var o := Step(now, ind, cur, g);
      && 1 <= ind <= o.ind <= |now|
      && var kept := mask + Falses(o.ind - ind);
      && (o.code != END ==>
            && Progress(args, now, o.ind, o.cur, out, kept, g)
            && (o.ind > ind || Left(now, o.ind, o.cur) < Left(now, ind, cur)))
      && (o.code == END && o.ind < |now| ==>
            Progress(args, now[..o.ind] + now[o.ind + 1..], o.ind, None, out + [now[o.ind]], kept + [true], g))
      && (o.code == END && o.ind == |now| ==> o.cur == None && Arrived(args, now + out, o.ind, o.arg, kept, g))
  {
    hide Step, RoleOf, Select, Arranged, Tracking, Plainspoken, MaskFits, Split, OperandMask, Left;
    StepMovesOn(now, ind, cur, g);
    var o := Step(now, ind, cur, g);
    var kept := mask + Falses(o.ind - ind);
    SplitKeeps(args, now, ind, out, mask, o.ind - ind);
    StepMasks(args, now, ind, cur, out, mask, g);
    if o.ind < |now| {
      SplitTakesOut(args, now, o.ind, out, kept);
    } else {
      SplitEnds(args, now, out, kept);
      if Plainspoken(g) {
        MaskComplete(args, kept, g);
      }
    }
  }

  // The same, for the roles.
  lemma StepMasks(args: seq<CStr>, now: seq<CStr>, ind: int, cur: Option<Cursor>, out: seq<CStr>, mask: seq<bool>,
                  g: Grammar)
    requires Progress(args, now, ind, cur, out, mask, g)
    ensures ind >= 1
    ensures var o := Step(now, ind, cur, g);
      && ind <= o.ind <= |now|
      && var kept := mask + Falses(o.ind - ind);
      Plainspoken(g) ==>
        && MaskFits(args, kept, g)
        && (o.code != END ==> Tracking(args, |kept|, o.cur, g))
        && (o.code == END && o.ind < |now| ==>
              MaskFits(args, kept + [true], g) && Tracking(args, |kept| + 1, None, g))
        && (o.code == END ==> o.arg == None)
  {
    hide Step, RoleOf, Select, Tracking, Plainspoken, Left;
    StepMovesOn(now, ind, cur, g);
    assert |now| - ind == |args| - |mask|;
    if Plainspoken(g) && ind < |now| {
      StepRoles(now, ind, args, |mask|, cur, g);
    }
  }

  // ----- The grammar a permuting scan uses -----

  function WithoutSigns(s: text): text {
    if s != [] && IsSign(s[0]) then WithoutSigns(s[1..]) else s
  }

  function PlusString(optstring: Option<text>): text {
    [PLUS] + if optstring.None? then [] else WithoutSigns(optstring.value)
  }

  const PERMUTE_VALUE: int := 0x5299
  const ZERO_OPTION: XOption := XOption(None, 0, None, 0)

  function CloneOf(x: XOption): XOption {
    XOption(x.name, x.hasArg, None, PERMUTE_VALUE)
  }

  // How many entries the table has before the one that ends it.
  function EntryCount(l: seq<XOption>): (n: nat)
    ensures n <= |l| && (n < |l| ==> IsTerminator(l[n]))
    ensures forall i :: 0 <= i < n ==> !IsTerminator(l[i])
    ensures Terminated(l) ==> n < |l|
  {
    if l == [] || IsTerminator(l[0]) then 0 else 1 + EntryCount(l[1..])
  }

  lemma Entries(l: seq<XOption>, n: nat)
    requires n < |l| && IsTerminator(l[n]) && forall i :: 0 <= i < n ==> !IsTerminator(l[i])
    ensures EntryCount(l) == n
  {
    var m := EntryCount(l);
    assert n < m || m <= n;
  }

  function Cloned(longopts: Option<seq<XOption>>): Option<seq<XOption>> {
    if longopts.None? then None
    else
      var n := EntryCount(longopts.value);
      Some(seq(n, k requires 0 <= k < n => CloneOf(longopts.value[k])) + [ZERO_OPTION])
  }

  function PermuteGrammar(optstring: Option<text>, longopts: Option<seq<XOption>>, only: bool): Grammar {
    GrammarOf(Some(PlusString(optstring)), Cloned(longopts), only)
  }

  lemma {:induction false} SignFound(h: seq<c8>)
    requires h != [] && IsSign(h[0])
    ensures IsSign(LastSign(h))
  {
    if !IsSign(h[|h| - 1]) {
      SignFound(h[..|h| - 1]);
    }
  }

  // A permuting scan never asks for another permutation.
  lemma PermuteGrammarScans(optstring: Option<text>, longopts: Option<seq<XOption>>, only: bool)
    ensures !PermuteGrammar(optstring, longopts, only).head.permute
  {
    var p := PlusString(optstring);
    assert p[0] == PLUS;
    SignFound(p[..HeadLength(p)]);
  }

  // Its option characters are the caller's, whose own mode flags are already gone.
  lemma PermuteGrammarKeeps(opts: text, longopts: Option<seq<XOption>>, only: bool)
    requires HeadLength(opts) == 0
    ensures PermuteGrammar(Some(opts), longopts, only).head == Head(false, false, false, opts)
  {
    var p := PlusString(Some(opts));
    assert p[1..] == opts;
    assert p[..1] == [PLUS] && [PLUS][..0] == [];
  }

  lemma {:induction false} CloneFindsTheSame(l: seq<XOption>, key: seq<c8>, i: nat, before: Match)
    requires Terminated(l) && i <= EntryCount(l)
    ensures LookupFrom(Cloned(Some(l)).value, key, i, before) == LookupFrom(l, key, i, before)
    decreases EntryCount(l) - i
  {
    var c := Cloned(Some(l)).value;
    var n := EntryCount(l);
    if i < n {
      assert c[i] == CloneOf(l[i]) && !IsTerminator(l[i]);
      if !Exact(l[i], key) {
        CloneFindsTheSame(l, key, i + 1,
                          if !Hit(l[i], key) then before else if before == NoMatch then Found(i) else Ambiguous);
      }
    }
  }

  lemma {:induction false} FoundIsEntry(l: seq<XOption>, key: seq<c8>, i: nat, before: Match)
    requires i <= EntryCount(l) && (before.Found? ==> before.i < EntryCount(l))
    ensures LookupFrom(l, key, i, before).Found? ==> LookupFrom(l, key, i, before).i < EntryCount(l)
    decreases |l| - i
  {
    if i < |l| && !IsTerminator(l[i]) && !Exact(l[i], key) {
      FoundIsEntry(l, key, i + 1,
                   if !Hit(l[i], key) then before else if before == NoMatch then Found(i) else Ambiguous);
    }
  }

  // The copied table, whose flags and values differ, leads to the same roles.
  lemma {:induction false} CloneKeepsRole(args: seq<CStr>, k: nat, g: Grammar)
    requires k < |args| && WellFormed(g) && HeadLength(g.head.opts) == 0
    ensures RoleOf(args, k, PermuteGrammar(Some(g.head.opts), g.longopts, g.only)) == RoleOf(args, k, g)
  {
    hide WordTakes, PermuteGrammar;
    if k > 0 {
      CloneKeepsRole(args, k - 1, g);
      if RoleOf(args, k - 1, g).Word? {
        CloneTakes(args[k - 1], Some(args[k]), g);
      }
    }
  }

  lemma CloneTakes(w: CStr, next: Option<CStr>, g: Grammar)
    requires IsWord(w) && WellFormed(g) && HeadLength(g.head.opts) == 0
    ensures WordTakes(w, next, PermuteGrammar(Some(g.head.opts), g.longopts, g.only)) == WordTakes(w, next, g)
  {
    hide LookupFrom, ParsedHead, ShortTakes, ArityOf;
    var p := PermuteGrammar(Some(g.head.opts), g.longopts, g.only);
    PermuteGrammarKeeps(g.head.opts, g.longopts, g.only);
    assert p.longopts == Cloned(g.longopts) && p.only == g.only;
    ShortTakesByOpts(w, WordStart(w), next, g, p);
    if TriesLong(w, g) {
      CloneFindsTheSame(g.longopts.value, Key(w), 0, NoMatch);
      FoundIsEntry(g.longopts.value, Key(w), 0, NoMatch);
    }
  }

  lemma {:induction false} ShortTakesByOpts(w: CStr, off: nat, next: Option<CStr>, g: Grammar, g': Grammar)
    requires off < |w.chars| && g.head.opts == g'.head.opts
    ensures ShortTakes(w, off, next, g) == ShortTakes(w, off, next, g')
    decreases |w.chars| - off
  {
    if off + 1 < |w.chars| {
      ShortTakesByOpts(w, off + 1, next, g, g');
    }
  }

  // What permuting does, in the terms of the caller's own grammar.
  lemma PermuteMeans(args: seq<CStr>, g: Grammar)
    requires WellFormed(g) && HeadLength(g.head.opts) == 0
    ensures var p := PermuteGrammar(Some(g.head.opts), g.longopts, g.only);
      && OperandMask(args, p) == OperandMask(args, g)
      && (Plainspoken(p) <==> -1 !in g.head.opts)
  {
    hide RoleOf, ParsedHead;
    PermuteGrammarKeeps(g.head.opts, g.longopts, g.only);
    forall k | 0 <= k < |args|
      ensures RoleOf(args, k, PermuteGrammar(Some(g.head.opts), g.longopts, g.only)) == RoleOf(args, k, g)
    {
      CloneKeepsRole(args, k, g);
    }
  }
}
