/**
 Scanning the argv that the permutation leaves: the options mean what they meant, unless the last element of the
 original argv was an option still waiting for its argument, which now takes the first operand.
 */
module GetoptArranged {
  import opened Prelude
  import opened GetoptSpec
  import opened GetoptRoles
  import opened GetoptSplit
  import opened GetoptTheorems

  function Operands(args: seq<CStr>, g: Grammar): seq<CStr> {
    Select(args, OperandMask(args, g), true)
  }

  function After(args: seq<CStr>, g: Grammar): seq<CStr> {
    Arranged(args, OperandMask(args, g))
  }

  predicate NoDash(args: seq<CStr>, j: nat, g: Grammar) {
    j <= |args| && forall k :: 0 <= k < j ==> RoleOf(args, k, g) != Dash
  }

  predicate WouldTake(args: seq<CStr>, k: nat, g: Grammar) {
    && k < |args| && RoleOf(args, k, g) == Operand
    && RoleOf(args, |args| - 1, g) == Word && WordTakes(args[|args| - 1], Some(args[k]), g)
  }

  // There is no lone dash, and the last element is an option word that would take an operand.
  ghost predicate Swallows(args: seq<CStr>, g: Grammar) {
    NoDash(args, |args|, g) && exists k: nat :: WouldTake(args, k, g)
  }

  // ----- The operands -----

  lemma {:induction false} SelectedFrom<T>(s: seq<T>, mask: seq<bool>, b: bool, i: nat) returns (k: nat)
    requires |s| == |mask| && i < |Select(s, mask, b)|
    ensures k < |s| && mask[k] == b && s[k] == Select(s, mask, b)[i]
  {
    var n := |s| - 1;
    var before := Select(s[..n], mask[..n], b);
    if i < |before| {
      k := SelectedFrom(s[..n], mask[..n], b, i);
    } else {
      k := n;
    }
  }

  lemma {:induction false} SelectsSome<T>(s: seq<T>, mask: seq<bool>, b: bool, k: nat)
    requires |s| == |mask| && k < |s| && mask[k] == b
    ensures Select(s, mask, b) != []
  {
    var n := |s| - 1;
    if k < n {
      SelectsSome(s[..n], mask[..n], b, k);
    }
  }

  // Without a lone dash no operand starts with a dash.
  lemma PlainOperand(args: seq<CStr>, k: nat, g: Grammar)
    requires NoDash(args, |args|, g) && k < |args| && RoleOf(args, k, g) == Operand
    ensures !StartsDash(args[k])
  {
    OperandsAreNotOptions(args, k, g);
  }

  lemma FirstOperand(args: seq<CStr>, g: Grammar) returns (k: nat)
    requires Operands(args, g) != []
    ensures k < |args| && RoleOf(args, k, g) == Operand && args[k] == Operands(args, g)[0]
  {
    hide RoleOf;
    k := SelectedFrom(args, OperandMask(args, g), true, 0);
  }

  // An element that takes one argument without a dash takes any other.
  lemma {:induction false} TakesAnyShort(w: CStr, off: nat, a: CStr, b: CStr, g: Grammar)
    requires off < |w.chars| && !StartsDash(a) && !StartsDash(b)
    ensures ShortTakes(w, off, Some(a), g) == ShortTakes(w, off, Some(b), g)
    decreases |w.chars| - off
  {
    if off + 1 < |w.chars| {
      TakesAnyShort(w, off + 1, a, b, g);
    }
  }

  lemma TakesAny(w: CStr, a: CStr, b: CStr, g: Grammar)
    requires IsWord(w) && !StartsDash(a) && !StartsDash(b)
    ensures WordTakes(w, Some(a), g) == WordTakes(w, Some(b), g)
  {
    hide LookupFrom, ShortTakes;
    TakesAnyShort(w, WordStart(w), a, b, g);
  }

  // ----- The last element -----

  // The same last word, before nothing and before an operand that follows it now.
  ghost predicate Last(args: seq<CStr>, j: nat, after: seq<CStr>, r: nat, cur: Option<Cursor>, g: Grammar) {
    && Ready(args, j, cur) && j + 1 == |args|
    && r + 1 < |after| && after[r] == args[j] && !StartsDash(after[r + 1])
  }

  // The step that takes the operand reports it, and reported nothing before.
  lemma ShortSwallows(args: seq<CStr>, j: nat, after: seq<CStr>, r: nat, off: nat, g: Grammar)
    requires j + 1 == |args| && r + 1 < |after| && after[r] == args[j] && off < |args[j].chars|
    requires !StartsDash(after[r + 1]) && ShortTakes(args[j], off, Some(after[r + 1]), g)
    ensures var o, p := ShortStep(args, j, off, g), ShortStep(after, r, off, Stopping(g));
      || o.arg != p.arg
      || (From(o, j) == From(p, r) && o.cur == Some(Cursor(args[j], off + 1)) && o.ind == j && off + 1 < |args[j].chars|
          && ShortTakes(args[j], off + 1, Some(after[r + 1]), g))
  {
    hide ArityOf;
  }

  lemma LongSwallows(args: seq<CStr>, j: nat, after: seq<CStr>, r: nat, g: Grammar)
    requires Last(args, j, after, r, None, g) && TriesLong(args[j], g) && LongStep(args, j, g).Some?
    requires WordTakes(args[j], Some(after[r + 1]), g)
    ensures LongStep(after, r, Stopping(g)).Some?
    ensures LongStep(args, j, g).value.arg != LongStep(after, r, Stopping(g)).value.arg
  {
    hide LookupFrom, ShortTakes;
    var w := args[j];
    LookupInside(g.longopts.value, Key(w), 0, NoMatch);
    IndexFromTail(w.chars, EQUALS, WordStart(w));
  }

  ghost predicate TakesIt(args: seq<CStr>, j: nat, after: seq<CStr>, r: nat, cur: Option<Cursor>, g: Grammar)
    requires Last(args, j, after, r, cur, g)
  {
    if cur.Some? then ShortTakes(args[j], cur.value.off, Some(after[r + 1]), g)
    else WordTakes(args[j], Some(after[r + 1]), g)
  }

  lemma WordSwallows(args: seq<CStr>, j: nat, after: seq<CStr>, r: nat, cur: Option<Cursor>, g: Grammar)
    requires Last(args, j, after, r, cur, g) && TakesIt(args, j, after, r, cur, g)
    ensures Ready(after, r, cur)
    ensures var o, p := WordStep(args, j, cur, g), WordStep(after, r, cur, Stopping(g));
      || o.arg != p.arg
      || (From(o, j) == From(p, r) && o.cur.Some? && o.ind == j && Last(args, j, after, r, o.cur, g)
          && TakesIt(args, j, after, r, o.cur, g) && Left(args, j, o.cur) < Left(args, j, cur))
  {
    hide LookupFrom, ArityOf, ShortTakes, ShortStep;
    if cur.Some? {
      ShortSwallows(args, j, after, r, cur.value.off, g);
    } else if TriesLong(args[j], g) && LongStep(args, j, g).Some? {
      LongSwallows(args, j, after, r, g);
    } else {
      SameChoice(args, j, after, r, g);
      ShortSwallows(args, j, after, r, WordStart(args[j]), g);
    }
  }

  lemma SameChoice(args: seq<CStr>, j: nat, after: seq<CStr>, r: nat, g: Grammar)
    requires Last(args, j, after, r, None, g) && !(TriesLong(args[j], g) && LongStep(args, j, g).Some?)
    ensures !(TriesLong(after[r], Stopping(g)) && LongStep(after, r, Stopping(g)).Some?)
    ensures WordTakes(args[j], Some(after[r + 1]), g)
      == ShortTakes(args[j], WordStart(args[j]), Some(after[r + 1]), g)
  {
    hide LookupFrom, ShortTakes;
  }

  // ----- One step, on both -----

  // Where the scan stops does not matter inside a word.
  lemma StopsAlike(args: seq<CStr>, j: nat, cur: Option<Cursor>, g: Grammar)
    requires Ready(args, j, cur)
    ensures WordStep(args, j, cur, Stopping(g)) == WordStep(args, j, cur, g)
  {
    hide WordStep;
    WordIsAlike(args, j, args, j, cur, g);
  }

  // The last word, which does not take what follows it now.
  lemma LastIsAlike(args: seq<CStr>, j: nat, after: seq<CStr>, r: nat, cur: Option<Cursor>, g: Grammar)
    requires Last(args, j, after, r, cur, g) && !TakesIt(args, j, after, r, cur, g)
    ensures Ready(after, r, cur)
    ensures From(WordStep(after, r, cur, Stopping(g)), r) == From(WordStep(args, j, cur, g), j)
  {
    hide WordStep, WordTakes, ShortTakes;
    WordIsAlike(after, r, args, j, cur, g);
    StopsAlike(args, j, cur, g);
    StopsAlike(after, r, cur, g);
  }

  lemma {:induction false} NothingTakesNothing(w: CStr, off: nat, g: Grammar)
    requires off < |w.chars|
    ensures !ShortTakes(w, off, None, g)
    decreases |w.chars| - off
  {
    if off + 1 < |w.chars| {
      NothingTakesNothing(w, off + 1, g);
    }
  }

  // How the last word is read: character by character, up to the end of args.
  lemma LastAdvances(args: seq<CStr>, j: nat, cur: Option<Cursor>, g: Grammar)
    requires Ready(args, j, cur) && j + 1 == |args|
    ensures var o := WordStep(args, j, cur, g);
      if o.cur.Some? then o.ind == j && InRange(o.cur, args[j]) && Left(args, j, o.cur) < Left(args, j, cur)
      else o.ind == |args|
  {
    hide WordStep, WordTakes, ShortTakes;
    WordAdvances(args, j, cur, g);
  }

  lemma StillNotTaken(args: seq<CStr>, j: nat, after: seq<CStr>, r: nat, cur: Option<Cursor>, g: Grammar)
    requires Last(args, j, after, r, cur, g) && !TakesIt(args, j, after, r, cur, g)
    ensures var o := WordStep(args, j, cur, g);
      o.cur.Some? ==> Last(args, j, after, r, o.cur, g) && !TakesIt(args, j, after, r, o.cur, g)
  {
    hide WordStep, WordTakes, ShortTakes;
    LastIsAlike(args, j, after, r, cur, g);
    StopsAlike(after, r, cur, g);
    WordAdvances(after, r, cur, g);
  }

  // ----- The whole run -----

  // An element that is inside a word, or starts one, is read as a word.
  lemma RunsWord(args: seq<CStr>, j: nat, cur: Option<Cursor>, g: Grammar)
    requires 1 <= j < |args| && Ready(args, j, cur)
    ensures Inside(args, j, cur)
    ensures var o := WordStep(args, j, cur, g);
      && Inside(args, o.ind, o.cur)
      && Run(args, j, cur, g)
        == if o.code == END then []
           else [Report(o.code, o.arg, o.opt, o.index)] + Run(args, o.ind, o.cur, g)
  {
    hide WordStep;
    StepMovesOn(args, j, cur, g);
  }

  // A scan that stops at operands ends where one begins, and at the end.
  lemma RunEnds(after: seq<CStr>, r: nat, g: Grammar)
    requires 1 <= r <= |after| && (r < |after| ==> !StartsDash(after[r])) && !g.head.argOfOne
    ensures Inside(after, r, None) && Run(after, r, None, Stopping(g)) == []
  {
  }

  lemma RunAtEnd(args: seq<CStr>, g: Grammar)
    requires |args| >= 1
    ensures Inside(args, |args|, None) && Run(args, |args|, None, g) == []
  {
  }

  lemma Differ<T>(a: T, s: seq<T>, b: T, t: seq<T>)
    ensures [a] + s == [b] + t <==> a == b && s == t
  {
    if [a] + s == [b] + t {
      assert ([a] + s)[0] == ([b] + t)[0];
      assert s == ([a] + s)[1..] && t == ([b] + t)[1..];
    }
  }

  // Reading the last word to its end.
  lemma {:induction false} LastRun(args: seq<CStr>, j: nat, after: seq<CStr>, r: nat, cur: Option<Cursor>, g: Grammar)
    requires j >= 1 && r >= 1 && Last(args, j, after, r, cur, g) && !g.head.argOfOne
    ensures Inside(args, j, cur) && Inside(after, r, cur)
    ensures !TakesIt(args, j, after, r, cur, g) ==>
      Run(after, r, cur, Stopping(g)) == Run(args, j, cur, g)
    ensures TakesIt(args, j, after, r, cur, g) && Plainspoken(g) ==>
      Run(after, r, cur, Stopping(g)) != Run(args, j, cur, g)
    decreases Left(args, j, cur)
  {
    hide Run, WordStep, TakesIt, Plainspoken, Left, StartsDash;
    var o, p := WordStep(args, j, cur, g), WordStep(after, r, cur, Stopping(g));
    RunsWord(args, j, cur, g);
    RunsWord(after, r, cur, Stopping(g));
    LastAdvances(args, j, cur, g);
    if TakesIt(args, j, after, r, cur, g) {
      WordSwallows(args, j, after, r, cur, g);
      if Plainspoken(g) {
        WordIsReported(args, j, cur, g);
        WordIsReported(after, r, cur, g);
        StopsAlike(after, r, cur, g);
        if o.arg == p.arg {
          LastRun(args, j, after, r, o.cur, g);
        }
        Differ(Report(o.code, o.arg, o.opt, o.index), Run(args, o.ind, o.cur, g),
               Report(p.code, p.arg, p.opt, p.index), Run(after, p.ind, p.cur, Stopping(g)));
      }
    } else {
      LastIsAlike(args, j, after, r, cur, g);
      StillNotTaken(args, j, after, r, cur, g);
      if o.cur.Some? {
        LastRun(args, j, after, r, o.cur, g);
      } else {
        RunEnds(after, r + 1, g);
        RunAtEnd(args, g);
      }
    }
  }

  lemma AfterFacts(args: seq<CStr>, j: nat, g: Grammar)
    requires 1 <= j <= |args|
    ensures var r, kept := Place(args, j, g), Kept(args, g);
      && After(args, g) == kept + Operands(args, g) && 1 <= r <= |kept| && (j == |args| ==> r == |kept|)
      && (j < |args| && RoleOf(args, j, g) != Operand ==>
            r < |kept| && After(args, g)[r] == args[j] && Place(args, j + 1, g) == r + 1)
  {
    hide Place, Kept, RoleOf;
    PlaceFacts(args, j, g);
    KeptMeans(args, g);
  }

  lemma KeptMeans(args: seq<CStr>, g: Grammar)
    ensures After(args, g) == Kept(args, g) + Operands(args, g)
  {
  }

  // Before the last element, a word stands before the same element as it did, or before an operand it does not take.
  lemma AfterIsAlike(args: seq<CStr>, j: nat, cur: Option<Cursor>, g: Grammar)
    requires Tracking(args, j, cur, g) && j + 1 < |args| && RoleOf(args, j, g) == Word
    ensures Alike(args, j, After(args, g), Place(args, j, g), cur, g)
  {
    hide Kept, Place, After, WordTakes, ShortTakes, StartsDash, Lone, RoleOf;
    AfterFacts(args, j, g);
    AfterFacts(args, j + 1, g);
    BehindWord(args, j, g);
  }

  lemma BehindWord(args: seq<CStr>, j: nat, g: Grammar)
    requires j + 1 < |args| && RoleOf(args, j, g) == Word
    ensures RoleOf(args, j + 1, g) == Operand ==> !WordTakes(args[j], Some(args[j + 1]), g) && !StartsDash(args[j + 1])
    ensures WordTakes(args[j], Some(args[j + 1]), g) ==> RoleOf(args, j + 1, g) == Argument
  {
    hide WordTakes, StartsDash, Lone;
  }

  // Without any dash the scan of the kept elements ends before an operand, or at the end.
  lemma AfterEnds(args: seq<CStr>, g: Grammar)
    requires |args| >= 1 && NoDash(args, |args|, g)
    ensures var r, after := |Kept(args, g)|, After(args, g);
      1 <= r <= |after| && (r < |after| ==> !StartsDash(after[r]))
  {
    hide Kept, RoleOf, Place, StartsDash, After;
    AfterFacts(args, |args|, g);
    if Operands(args, g) != [] {
      var k := FirstOperand(args, g);
      PlainOperand(args, k, g);
    }
  }

  // What becomes of a last word.
  lemma LastSwallows(args: seq<CStr>, j: nat, g: Grammar)
    requires 1 <= j && j + 1 == |args| && RoleOf(args, j, g) == Word && NoDash(args, |args|, g)
    ensures var r, after := Place(args, j, g), After(args, g);
      && r >= 1 && r + 1 <= |after|
      && (r + 1 == |after| ==> after[r] == args[j] && !Swallows(args, g))
      && (r + 1 < |after| ==> Last(args, j, after, r, None, g)
                              && (Swallows(args, g) <==> TakesIt(args, j, after, r, None, g)))
  {
    hide Kept, RoleOf, Place, StartsDash, WordTakes, After;
    AfterFacts(args, j, g);
    AfterFacts(args, |args|, g);
    AfterEnds(args, g);
    if Operands(args, g) == [] {
      forall k: nat ensures !WouldTake(args, k, g) {
        if WouldTake(args, k, g) {
          SelectsSome(args, OperandMask(args, g), true, k);
        }
      }
    } else {
      var first := FirstOperand(args, g);
      PlainOperand(args, first, g);
      if k: nat :| WouldTake(args, k, g) {
        PlainOperand(args, k, g);
        TakesAny(args[j], args[k], args[first], g);
      }
      assert WouldTake(args, first, g) <==> WordTakes(args[j], Some(args[first]), g);
    }
  }

  lemma NotLastWord(args: seq<CStr>, g: Grammar)
    requires |args| >= 1 && (RoleOf(args, |args| - 1, g) != Word || !NoDash(args, |args|, g))
    ensures !Swallows(args, g)
  {
  }

  // A word that is not the last keeps the scan clear of lone dashes, and if it takes the last element, that is no
  // word.
  lemma WordPasses(args: seq<CStr>, j: nat, cur: Option<Cursor>, g: Grammar)
    requires Tracking(args, j, cur, g) && j + 1 < |args| && RoleOf(args, j, g) == Word && NoDash(args, j, g)
    ensures Ready(args, j, cur)
    ensures var o := WordStep(args, j, cur, g);
      && j <= o.ind <= |args| && Tracking(args, o.ind, o.cur, g) && NoDash(args, o.ind, g)
      && (o.cur.Some? ==> o.ind == j) && (o.ind == |args| ==> RoleOf(args, |args| - 1, g) == Argument)
      && (o.ind > j || Left(args, o.ind, o.cur) < Left(args, j, cur))
      && Place(args, o.ind, g) == Place(args, j, g) + (o.ind - j)
  {
    hide WordStep, WordTakes, ShortTakes, StartsDash, Lone, Place, RoleOf;
    WordTracks(args, j, cur, g);
    WordAdvances(args, j, cur, g);
    AfterFacts(args, j, g);
    BehindWord(args, j, g);
    AfterFacts(args, j + 1, g);
  }

  // Both runs report the word's next option and go on, or end with it.
  lemma WordRuns(args: seq<CStr>, j: nat, cur: Option<Cursor>, g: Grammar)
    requires 1 <= j && Tracking(args, j, cur, g) && j + 1 < |args| && RoleOf(args, j, g) == Word && NoDash(args, j, g)
    ensures Ready(args, j, cur)
    ensures var o, r, after := WordStep(args, j, cur, g), Place(args, j, g), After(args, g);
      && o.ind <= |args| && Inside(args, j, cur) && Inside(after, r, cur)
      && Inside(args, o.ind, o.cur) && Inside(after, Place(args, o.ind, g), o.cur)
      && (o.code == END ==> !Plainspoken(g) && Run(args, j, cur, g) == Run(after, r, cur, Stopping(g)) == [])
      && (o.code != END ==>
            (Run(after, r, cur, Stopping(g)) == Run(args, j, cur, g)
             <==> Run(after, Place(args, o.ind, g), o.cur, Stopping(g)) == Run(args, o.ind, o.cur, g)))
  {
    hide Run, After, Kept, Place, WordStep, WordTakes, ShortTakes, Plainspoken, Left, RoleOf, Tracking, Alike;
    var after, r := After(args, g), Place(args, j, g);
    AfterFacts(args, j, g);
    WordPasses(args, j, cur, g);
    AfterIsAlike(args, j, cur, g);
    AlikeReady(args, j, after, r, cur, g);
    WordIsAlike(args, j, after, r, cur, g);
    RunsWord(args, j, cur, g);
    RunsWord(after, r, cur, Stopping(g));
    var o, p := WordStep(args, j, cur, g), WordStep(after, r, cur, Stopping(g));
    if Plainspoken(g) {
      WordIsReported(args, j, cur, g);
    }
    Differ(Report(p.code, p.arg, p.opt, p.index), Run(after, p.ind, p.cur, Stopping(g)),
           Report(o.code, o.arg, o.opt, o.index), Run(args, o.ind, o.cur, g));
  }

  lemma AlikeReady(args: seq<CStr>, j: nat, after: seq<CStr>, r: nat, cur: Option<Cursor>, g: Grammar)
    requires Alike(args, j, after, r, cur, g)
    ensures Ready(args, j, cur) && Ready(after, r, cur)
  {
  }

  lemma {:induction false} RunAfter(args: seq<CStr>, j: nat, cur: Option<Cursor>, g: Grammar)
    requires Tracking(args, j, cur, g) && g.head.permute && !g.head.argOfOne && NoDash(args, j, g)
    requires j + 1 == |args| ==> cur == None
    ensures Inside(args, j, cur) && Inside(After(args, g), Place(args, j, g), cur)
    ensures !Swallows(args, g) ==> Run(After(args, g), Place(args, j, g), cur, Stopping(g)) == Run(args, j, cur, g)
    ensures Swallows(args, g) && Plainspoken(g) && j < |args| ==>
      Run(After(args, g), Place(args, j, g), cur, Stopping(g)) != Run(args, j, cur, g)
    decreases |args| - j, Left(args, j, cur)
  {
    hide Run, After, Place, WordStep, Swallows, Plainspoken, Left, RoleOf, Tracking, NoDash, TakesIt, StartsDash;
    TrackingFacts(args, j, cur, g);
    var after, r := After(args, g), Place(args, j, g);
    AfterFacts(args, j, g);
    if j == |args| {
      AfterEnds(args, g);
      RunEnds(after, r, g);
      RunAtEnd(args, g);
    } else if RoleOf(args, j, g) == Operand {
      RunsPastOperand(args, j, g);
      PlaceFacts(args, j, g);
      if j + 1 == |args| {
        NotLastWord(args, g);
      }
      RunAfter(args, j + 1, None, g);
    } else if RoleOf(args, j, g) == Dash {
      DashSeen(args, j, g);
      NotLastWord(args, g);
      RunsToDash(args, j, g);
      RunsToDash(after, r, Stopping(g));
    } else if j + 1 < |args| {
      WordPasses(args, j, cur, g);
      WordRuns(args, j, cur, g);
      var o := WordStep(args, j, cur, g);
      if o.ind == |args| {
        NotLastWord(args, g);
      }
      RunAfter(args, o.ind, o.cur, g);
    } else {
      LastSwallows(args, j, g);
      if r + 1 < |after| {
        LastRun(args, j, after, r, None, g);
      } else {
        LastAlone(args, j, after, r, None, g);
      }
    }
  }

  // What the scan may find where it stands.
  lemma TrackingFacts(args: seq<CStr>, j: nat, cur: Option<Cursor>, g: Grammar)
    requires Tracking(args, j, cur, g) && NoDash(args, j, g)
    ensures 1 <= j <= |args| && Inside(args, j, cur)
    ensures j < |args| ==>
      var role := RoleOf(args, j, g);
      && (role == Operand || role == Dash || role == Word)
      && (role == Operand ==> cur == None && Tracking(args, j + 1, None, g) && NoDash(args, j + 1, g))
      && (role == Dash ==> cur == None && Lone(args[j]))
      && (role == Word && j + 1 == |args| ==> NoDash(args, |args|, g) && (cur == None ==> Ready(args, j, None)))
  {
    hide WordTakes, ShortTakes;
  }

  lemma DashSeen(args: seq<CStr>, j: nat, g: Grammar)
    requires j < |args| && RoleOf(args, j, g) == Dash
    ensures !NoDash(args, |args|, g)
  {
  }

  lemma RunsPastOperand(args: seq<CStr>, j: nat, g: Grammar)
    requires 1 <= j < |args| && RoleOf(args, j, g) == Operand && NoDash(args, j, g)
    requires g.head.permute && !g.head.argOfOne
    ensures Inside(args, j, None) && Inside(args, j + 1, None)
    ensures Run(args, j, None, g) == Run(args, j + 1, None, g)
  {
    OperandsAreNotOptions(args, j, g);
    assert Visit(args, j, None, g) == Visit(args, j + 1, None, g);
  }

  lemma RunsToDash(args: seq<CStr>, j: nat, g: Grammar)
    requires 1 <= j < |args| && Lone(args[j])
    ensures Inside(args, j, None) && Run(args, j, None, g) == []
  {
  }

  // With no operands the last word is the last of both.
  lemma {:induction false} LastAlone(args: seq<CStr>, j: nat, after: seq<CStr>, r: nat, cur: Option<Cursor>, g: Grammar)
    requires j >= 1 && r >= 1 && Ready(args, j, cur) && j + 1 == |args| && r + 1 == |after| && after[r] == args[j]
    ensures Inside(args, j, cur) && Inside(after, r, cur)
    ensures Run(after, r, cur, Stopping(g)) == Run(args, j, cur, g)
    decreases Left(args, j, cur)
  {
    hide Run, WordStep, Left;
    RunsWord(args, j, cur, g);
    RunsWord(after, r, cur, Stopping(g));
    LastAdvances(args, j, cur, g);
    WordIsAlike(args, j, after, r, cur, g);
    var o := WordStep(args, j, cur, g);
    if o.cur.Some? {
      LastAlone(args, j, after, r, o.cur, g);
    } else {
      RunAtEnd(args, g);
      RunAtEnd(after, Stopping(g));
    }
  }

  // Scanning the permuted argv, stopping at the first operand, reports what scanning the original argv did, with
  // operands skipped, unless the last element swallows one. If no option is reported with the code that means the
  // end, that is the exact condition.
  lemma ArrangedRun(args: seq<CStr>, g: Grammar)
    requires |args| >= 1 && g.head.permute && !g.head.argOfOne
    ensures !Swallows(args, g) ==> Run(After(args, g), 1, None, Stopping(g)) == Run(args, 1, None, g)
    ensures Plainspoken(g) ==>
      (Run(After(args, g), 1, None, Stopping(g)) == Run(args, 1, None, g) <==> !Swallows(args, g))
  {
    hide Run, After, Place, RoleOf, Tracking, WouldTake;
    RolesStart(args, g);
    PlaceStarts(args, g);
    ProgramFirst(args, g);
    RunAfter(args, 1, None, g);
    if |args| == 1 {
      NotLastWord(args, g);
    }
  }

  lemma ProgramFirst(args: seq<CStr>, g: Grammar)
    requires |args| >= 1
    ensures RoleOf(args, 0, g) == Program && NoDash(args, 1, g)
  {
  }

  // In "prog a -o", with an option o that must have an argument, o has none; in the permuted "prog -o a" it has a.
  lemma OperandSwallowed(args: seq<CStr>, g: Grammar)
    requires |args| == 3 && args[1].chars == [97] && args[2].chars == [DASH, 111]
    requires g == Grammar(Head(true, false, false, [111, COLON]), None, false)
    ensures Run(args, 1, None, g) == [Report(QUESTION, None, Some(111), None)]
    ensures After(args, g) == [args[0], args[2], args[1]]
    ensures Run(After(args, g), 1, None, Stopping(g)) == [Report(111, Some(Cursor(args[1], 0)), None, None)]
    ensures Swallows(args, g)
  {
    hide Run, RoleOf, WordTakes, Arranged;
    RolesOfThree(args, g);
    assert OperandMask(args, g) == [false, true, false];
    ArrangedOfThree(args);
    OptionUnserved(args, g);
    OptionServed(After(args, g), g);
    assert WouldTake(args, 1, g);
  }

  lemma ArrangedOfThree<T>(args: seq<T>)
    requires |args| == 3
    ensures Arranged(args, [false, true, false]) == [args[0], args[2], args[1]]
  {
    SelectOfThree(args, false);
    SelectOfThree(args, true);
  }

  lemma SelectOfThree<T>(args: seq<T>, b: bool)
    requires |args| == 3
    ensures Select(args, [false, true, false], b) == if b then [args[1]] else [args[0], args[2]]
  {
    hide Select;
    SelectNone(args[..0], b);
    SelectMore(args, 0, [], false, b);
    SelectMore(args, 1, [false], true, b);
    SelectMore(args, 2, [false, true], false, b);
    assert [] + [false] == [false] && [false] + [true] == [false, true];
    assert [false, true] + [false] == [false, true, false] && args[..3] == args;
  }

  lemma SelectNone<T>(s: seq<T>, b: bool)
    requires s == []
    ensures Select(s, [], b) == []
  {
  }

  lemma ArityOfO()
    ensures ArityOf([111, COLON], 111) == Required
  {
    assert [111, COLON][0] == 111;
  }

  lemma RolesOfThree(args: seq<CStr>, g: Grammar)
    requires |args| == 3 && args[1].chars == [97] && args[2].chars == [DASH, 111]
    requires g == Grammar(Head(true, false, false, [111, COLON]), None, false)
    ensures RoleOf(args, 0, g) == Program && RoleOf(args, 1, g) == Operand && RoleOf(args, 2, g) == Word
    ensures WordTakes(args[2], Some(args[1]), g)
  {
    ArityOfO();
  }

  lemma OptionUnserved(args: seq<CStr>, g: Grammar)
    requires |args| == 3 && args[1].chars == [97] && args[2].chars == [DASH, 111]
    requires g == Grammar(Head(true, false, false, [111, COLON]), None, false)
    ensures Run(args, 1, None, g) == [Report(QUESTION, None, Some(111), None)]
  {
    ArityOfO();
    RunAtEnd(args, g);
    assert Visit(args, 2, None, g) == Outcome(QUESTION, 3, None, None, Some(111), None, None, false);
    assert Visit(args, 1, None, g) == Visit(args, 2, None, g);
  }

  lemma OptionServed(after: seq<CStr>, g: Grammar)
    requires |after| == 3 && after[2].chars == [97] && after[1].chars == [DASH, 111]
    requires g == Grammar(Head(true, false, false, [111, COLON]), None, false)
    ensures Run(after, 1, None, Stopping(g)) == [Report(111, Some(Cursor(after[2], 0)), None, None)]
  {
    ArityOfO();
    RunAtEnd(after, Stopping(g));
    assert Visit(after, 1, None, Stopping(g)) == Plain(111, 3, Some(Cursor(after[2], 0)));
  }
}
