/** What a caller can rely on: the permutation loses nothing, and the elements it keeps mean what they meant. */
module GetoptTheorems {
  import opened Prelude
  import opened GetoptSpec
  import opened GetoptRoles
  import opened GetoptSplit

  // ----- The permutation -----

  lemma {:induction false} SelectFirst<T>(s: seq<T>, mask: seq<bool>)
    requires |s| == |mask| > 0 && !mask[0]
    ensures var kept := Select(s, mask, false);
      kept != [] && kept[0] == s[0]
  {
    var n := |s| - 1;
    if n > 0 {
      SelectFirst(s[..n], mask[..n]);
    } else {
      assert s[..0] == [];
    }
  }

  // Nothing is lost or made up, and the program's name stays where it is.
  lemma ArrangedIsPermutation(args: seq<CStr>, g: Grammar)
    requires |args| >= 1
    ensures var after := Arranged(args, OperandMask(args, g));
      multiset(after) == multiset(args) && |after| == |args| && after[0] == args[0]
  {
    var mask := OperandMask(args, g);
    assert RoleOf(args, 0, g) == Program && !mask[0];
    SelectSplits(args, mask);
    SelectFirst(args, mask);
    Multisets(Select(args, mask, false), Select(args, mask, true));
  }

  lemma Multisets<T>(a: seq<T>, b: seq<T>)
    ensures multiset(a + b) == multiset(a) + multiset(b)
  {
  }

  // An element moved to the end is no option: it does not start with a dash, or a lone dash protects it.
  lemma OperandsAreNotOptions(args: seq<CStr>, k: nat, g: Grammar)
    requires k < |args| && RoleOf(args, k, g) == Operand
    ensures k > 0 && (!StartsDash(args[k]) || Lone(args[k - 1]))
  {
  }

  predicate IsOperand(args: seq<CStr>, k: nat, g: Grammar)
    requires k < |args|
  {
    RoleOf(args, k, g) == Operand
  }

  predicate OperandsBehind(args: seq<CStr>, d: nat, g: Grammar) {
    forall k :: d < k < |args| ==> IsOperand(args, k, g)
  }

  // Behind a lone dash at d everything is an operand exactly when nothing beyond its successor starts with
  // a dash: the protection ends with the first element, unlike GNU's.
  lemma DashProtects(args: seq<CStr>, d: nat, g: Grammar)
    requires d < |args| && RoleOf(args, d, g) == Dash
    ensures OperandsBehind(args, d, g) <==> forall k :: d + 1 < k < |args| ==> !StartsDash(args[k])
  {
    if forall k :: d + 1 < k < |args| ==> !StartsDash(args[k]) {
      forall k | d < k < |args|
        ensures IsOperand(args, k, g)
      {
        OperandsGoOn(args, d, k, g);
      }
    } else {
      var k :| d + 1 < k < |args| && StartsDash(args[k]);
      var i := if RoleOf(args, k, g) == Operand then k - 1 else k;
      assert d < i < |args| && !IsOperand(args, i, g);
    }
  }

  lemma {:induction false} OperandsGoOn(args: seq<CStr>, d: nat, k: nat, g: Grammar)
    requires d < k < |args| && RoleOf(args, d, g) == Dash
    requires forall i :: d + 1 < i < |args| ==> !StartsDash(args[i])
    ensures RoleOf(args, k, g) == Operand
  {
    if k > d + 1 {
      OperandsGoOn(args, d, k - 1, g);
    }
  }

  // In "prog -- a -b" the last element is still read as an option.
  lemma DashProtectsOnlyOne(args: seq<CStr>, g: Grammar)
    requires |args| == 4 && args[1].chars == [DASH, DASH] && args[2].chars == [97] && args[3].chars == [DASH, 98]
    ensures RoleOf(args, 1, g) == Dash && RoleOf(args, 2, g) == Operand && RoleOf(args, 3, g) == Word
  {
  }

  // ----- The table of long options -----

  // What the entries before i amount to, none of them being exact.
  ghost predicate Summary(l: seq<XOption>, key: seq<c8>, i: nat, m: Match) {
    && i <= EntryCount(l)
    && (forall j :: 0 <= j < i ==> !Exact(l[j], key))
    && match m
       case NoMatch => forall j :: 0 <= j < i ==> !Hit(l[j], key)
       case Found(h) => h < i && Hit(l[h], key) && forall j :: 0 <= j < i && j != h ==> !Hit(l[j], key)
       case Ambiguous => exists a, b :: 0 <= a < b < i && Hit(l[a], key) && Hit(l[b], key)
  }

  // An exact name wins, the first of several; else an abbreviation must have one completion only.
  ghost predicate Selects(l: seq<XOption>, key: seq<c8>, m: Match) {
    var n := EntryCount(l);
    if m.Found? && m.i < n && Exact(l[m.i], key) then forall j :: 0 <= j < m.i ==> !Exact(l[j], key)
    else Summary(l, key, n, m)
  }

  lemma {:induction false} LookupSelects(l: seq<XOption>, key: seq<c8>, i: nat, before: Match)
    requires Terminated(l) && Summary(l, key, i, before)
    ensures Selects(l, key, LookupFrom(l, key, i, before))
    decreases EntryCount(l) - i
  {
    var n := EntryCount(l);
    if i < n && !Exact(l[i], key) {
      var m := if !Hit(l[i], key) then before else if before == NoMatch then Found(i) else Ambiguous;
      SummaryGrows(l, key, i, before, m);
      LookupSelects(l, key, i + 1, m);
    }
  }

  lemma SummaryGrows(l: seq<XOption>, key: seq<c8>, i: nat, before: Match, m: Match)
    requires Summary(l, key, i, before) && i < EntryCount(l) && !Exact(l[i], key)
    requires m == if !Hit(l[i], key) then before else if before == NoMatch then Found(i) else Ambiguous
    ensures Summary(l, key, i + 1, m)
  {
    if before.Found? && m.Ambiguous? {
      assert Hit(l[before.i], key) && Hit(l[i], key);
    }
  }

  lemma LookupMeans(l: seq<XOption>, key: seq<c8>)
    requires Terminated(l)
    ensures Selects(l, key, Lookup(l, key))
  {
    LookupSelects(l, key, 0, NoMatch);
  }

  // ----- What the options mean, among the elements that stay -----

  /** What a caller learns from one call. */
  datatype Report = Report(code: int, arg: Option<Cursor>, opt: Option<c8>, index: Option<nat>)

  // The reports of calling again and again up to the end.
  ghost function Run(args: seq<CStr>, ind: nat, cur: Option<Cursor>, g: Grammar): seq<Report>
    requires Inside(args, ind, cur)
    decreases |args| - ind, Left(args, ind, cur)
  {
    StepMovesOn(args, ind, cur, g);
    var o := Step(args, ind, cur, g);
    if o.code == END then []
    else [Report(o.code, o.arg, o.opt, o.index)] + Run(args, o.ind, o.cur, g)
  }

  function Stopping(g: Grammar): Grammar {
    g.(head := g.head.(permute := false))
  }

  function Rank<T>(s: seq<T>, mask: seq<bool>, j: nat): nat
    requires |s| == |mask| && j <= |s|
  {
    |Select(s[..j], mask[..j], false)|
  }

  lemma {:induction false} SelectIndex<T>(s: seq<T>, mask: seq<bool>, j: nat)
    requires j < |s| == |mask|
    ensures var kept, r := Select(s, mask, false), Rank(s, mask, j);
      && Rank(s, mask, j + 1) == r + (if mask[j] then 0 else 1)
      && (!mask[j] ==> r < |kept| && kept[r] == s[j])
  {
    var n := |s| - 1;
    assert s[..j + 1][..j] == s[..j] && mask[..j + 1][..j] == mask[..j];
    if j < n {
      SelectIndex(s[..n], mask[..n], j);
      assert s[..n][..j] == s[..j] && mask[..n][..j] == mask[..j];
    } else {
      assert s[..j + 1] == s && mask[..j + 1] == mask;
    }
  }

  // The same element at j in args and at r in kept; what comes next is the same too, or is an operand that
  // the element does not take.
  ghost predicate Alike(args: seq<CStr>, j: nat, kept: seq<CStr>, r: nat, cur: Option<Cursor>, g: Grammar) {
    && Ready(args, j, cur) && r < |kept| && kept[r] == args[j]
    && (Next(kept, r) == Next(args, j)
        || (Next(args, j).Some? && !StartsDash(Next(args, j).value) && !Takes(args, j, cur, g)))
  }

  // An outcome, with its index counted from the element it starts at.
  function From(o: Outcome, ind: int): Outcome {
    o.(ind := o.ind - ind)
  }

  lemma WordIsAlike(args: seq<CStr>, j: nat, kept: seq<CStr>, r: nat, cur: Option<Cursor>, g: Grammar)
    requires Alike(args, j, kept, r, cur, g)
    ensures From(WordStep(kept, r, cur, Stopping(g)), r) == From(WordStep(args, j, cur, g), j)
  {
    hide LookupFrom, ArityOf;
    if cur.Some? {
      ShortIsAlike(args, j, kept, r, cur.value.off, g);
    } else if TriesLong(args[j], g) && LongStep(args, j, g).Some? {
      LongIsAlike(args, j, kept, r, g);
    } else {
      ShortIsAlike(args, j, kept, r, WordStart(args[j]), g);
    }
  }

  lemma ShortIsAlike(args: seq<CStr>, j: nat, kept: seq<CStr>, r: nat, off: nat, g: Grammar)
    requires j < |args| && r < |kept| && kept[r] == args[j] && off < |args[j].chars|
    requires Next(kept, r) == Next(args, j)
      || (Next(args, j).Some? && !StartsDash(Next(args, j).value) && !ShortTakes(args[j], off, Next(args, j), g))
    ensures From(ShortStep(kept, r, off, Stopping(g)), r) == From(ShortStep(args, j, off, g), j)
  {
    hide ArityOf;
  }

  lemma LongIsAlike(args: seq<CStr>, j: nat, kept: seq<CStr>, r: nat, g: Grammar)
    requires Alike(args, j, kept, r, None, g) && TriesLong(args[j], g) && LongStep(args, j, g).Some?
    ensures LongStep(kept, r, Stopping(g)).Some?
    ensures From(LongStep(kept, r, Stopping(g)).value, r) == From(LongStep(args, j, g).value, j)
  {
    hide LookupFrom, ShortTakes;
    var w := args[j];
    LookupInside(g.longopts.value, Key(w), 0, NoMatch);
    IndexFromTail(w.chars, EQUALS, WordStart(w));
  }

  lemma {:induction false} SelectPrefix<T>(s: seq<T>, mask: seq<bool>, j: nat)
    requires j <= |s| == |mask|
    ensures Rank(s, mask, j) <= |Select(s, mask, false)|
    ensures j == |s| ==> Rank(s, mask, j) == |Select(s, mask, false)|
  {
    var n := |s| - 1;
    if j < |s| {
      SelectPrefix(s[..n], mask[..n], j);
      assert s[..n][..j] == s[..j] && mask[..n][..j] == mask[..j];
    } else {
      assert s[..j] == s && mask[..j] == mask;
    }
  }

  // The elements that stay.
  function Kept(args: seq<CStr>, g: Grammar): seq<CStr> {
    Select(args, OperandMask(args, g), false)
  }

  // Where element j is, or would be, among those that stay.
  function Place(args: seq<CStr>, j: nat, g: Grammar): nat
    requires j <= |args|
  {
    Rank(args, OperandMask(args, g), j)
  }

  lemma PlaceFacts(args: seq<CStr>, j: nat, g: Grammar)
    requires 1 <= j <= |args|
    ensures 1 <= Place(args, j, g) <= |Kept(args, g)|
    ensures j == |args| ==> Place(args, j, g) == |Kept(args, g)|
    ensures j < |args| ==>
      && Place(args, j + 1, g) == Place(args, j, g) + (if RoleOf(args, j, g) == Operand then 0 else 1)
      && (RoleOf(args, j, g) != Operand ==>
            Place(args, j, g) < |Kept(args, g)| && Kept(args, g)[Place(args, j, g)] == args[j])
  {
    hide Select;
    var mask := OperandMask(args, g);
    assert RoleOf(args, 0, g) == Program && !mask[0];
    SelectPrefix(args, mask, j);
    SelectFirst(args[..j], mask[..j]);
    if j < |args| {
      SelectIndex(args, mask, j);
    }
  }

  // Reading on in an option word.
  lemma WordTracks(args: seq<CStr>, j: nat, cur: Option<Cursor>, g: Grammar)
    requires Tracking(args, j, cur, g) && j < |args| && RoleOf(args, j, g) == Word
    ensures Ready(args, j, cur)
    ensures var o := WordStep(args, j, cur, g);
      && j <= o.ind <= |args| && o.ind <= j + 2 && Tracking(args, o.ind, o.cur, g)
      && (forall k :: j <= k < o.ind ==> RoleOf(args, k, g) != Operand)
      && (o.ind > j || Left(args, o.ind, o.cur) < Left(args, j, cur))
  {
    hide WordStep, WordTakes, ShortTakes, StartsDash, Lone;
    WordAdvances(args, j, cur, g);
    if WordTakes(args[j], Next(args, j), g) {
      assert j + 1 < |args| ==> RoleOf(args, j + 1, g) == Argument;
    }
  }

  lemma KeptIsAlike(args: seq<CStr>, j: nat, cur: Option<Cursor>, g: Grammar)
    requires Tracking(args, j, cur, g) && j < |args| && RoleOf(args, j, g) == Word
    ensures Alike(args, j, Kept(args, g), Place(args, j, g), cur, g)
  {
    hide Kept, Place, WordTakes, ShortTakes, StartsDash, Lone;
    PlaceFacts(args, j, g);
    PlaceFacts(args, j + 1, g);
    if j + 1 < |args| && RoleOf(args, j + 1, g) == Operand {
      assert !WordTakes(args[j], Next(args, j), g) && FreshRole(args[j + 1]) == Operand;
    }
  }

  lemma {:induction false} RunAgrees(args: seq<CStr>, j: nat, cur: Option<Cursor>, g: Grammar)
    requires Tracking(args, j, cur, g) && g.head.permute && !g.head.argOfOne
    ensures Inside(args, j, cur) && Inside(Kept(args, g), Place(args, j, g), cur)
    ensures Run(Kept(args, g), Place(args, j, g), cur, Stopping(g)) == Run(args, j, cur, g)
    decreases |args| - j, Left(args, j, cur)
  {
    hide Kept, Place, WordStep, WordTakes, ShortTakes, StartsDash, Lone;
    var kept, r := Kept(args, g), Place(args, j, g);
    PlaceFacts(args, j, g);
    if j == |args| {
      assert Run(kept, r, cur, Stopping(g)) == Run(args, j, cur, g) == [];
    } else if RoleOf(args, j, g) == Operand {
      assert Visit(args, j, None, g) == Visit(args, j + 1, None, g);
      RunAgrees(args, j + 1, None, g);
    } else if RoleOf(args, j, g) == Dash {
      assert Run(kept, r, cur, Stopping(g)) == Run(args, j, cur, g) == [];
    } else {
      WordTracks(args, j, cur, g);
      KeptIsAlike(args, j, cur, g);
      WordIsAlike(args, j, kept, r, cur, g);
      var o := WordStep(args, j, cur, g);
      if o.code != END {
        PlaceFacts(args, j + 1, g);
        assert Place(args, o.ind, g) == r + (o.ind - j);
        RunAgrees(args, o.ind, o.cur, g);
      }
    }
  }

  lemma PlaceStarts(args: seq<CStr>, g: Grammar)
    requires |args| >= 1
    ensures Place(args, 1, g) == 1
  {
    var mask := OperandMask(args, g);
    assert RoleOf(args, 0, g) == Program;
    SelectMore(args, 0, [], false, false);
    assert [] + [false] == mask[..1] && args[..0] == [];
  }

  // The options and their arguments are the same whether the caller lets operands be skipped, or scans the
  // elements that stay and stops at the first operand.
  lemma RunPreserved(args: seq<CStr>, g: Grammar)
    requires |args| >= 1 && g.head.permute && !g.head.argOfOne
    ensures |Kept(args, g)| >= 1
    ensures Run(Kept(args, g), 1, None, Stopping(g)) == Run(args, 1, None, g)
  {
    hide Kept, Place, Run, RoleOf, Tracking;
    RolesStart(args, g);
    PlaceFacts(args, 1, g);
    PlaceStarts(args, g);
    RunAgrees(args, 1, None, g);
  }
}
