/** What part each element of argv plays, read off in one pass from left to right. */
module GetoptRoles {
  import opened Prelude
  import opened GetoptSpec

  datatype Role = Program | Word | Argument | Dash | Operand

  // Whether the short options from offset off on use up the next element as an argument.
  function ShortTakes(w: CStr, off: nat, next: Option<CStr>, g: Grammar): bool
    requires off < |w.chars|
    decreases |w.chars| - off
  {
    var a := ArityOf(g.head.opts, w.chars[off]);
    if a.Required? || a.Optional? then
      off + 1 == |w.chars| && next.Some? && (a.Required? || !StartsDash(next.value))
    else off + 1 < |w.chars| && ShortTakes(w, off + 1, next, g)
  }

  // Whether option word w uses up the next element as an argument.
  function WordTakes(w: CStr, next: Option<CStr>, g: Grammar): bool
    requires IsWord(w)
  {
    if TriesLong(w, g) then
      match Lookup(g.longopts.value, Key(w))
      case NoMatch => g.only && ShortTakes(w, WordStart(w), next, g)
      case Ambiguous => false
      case Found(i) =>
        i < |g.longopts.value| && g.longopts.value[i].hasArg == REQUIRED_ARGUMENT
        && EQUALS !in w.chars[WordStart(w)..] && next.Some?
    else ShortTakes(w, WordStart(w), next, g)
  }

  // The part of an element that is neither an argument nor behind a lone dash.
  function FreshRole(e: CStr): Role {
    if !StartsDash(e) then Operand else if Lone(e) then Dash else Word
  }

  // A lone dash protects exactly the element behind it.
  function RoleOf(args: seq<CStr>, k: nat, g: Grammar): (r: Role)
    requires k < |args|
    ensures r.Word? ==> IsWord(args[k])
    ensures r.Dash? ==> Lone(args[k])
  {
    if k == 0 then Program
    else
      var before := RoleOf(args, k - 1, g);
      if before.Word? && WordTakes(args[k - 1], Some(args[k]), g) then Argument
      else if before.Dash? then Operand
      else FreshRole(args[k])
  }

  function OperandMask(args: seq<CStr>, g: Grammar): seq<bool> {
    seq(|args|, k requires 0 <= k < |args| => RoleOf(args, k, g) == Operand)
  }

  // The elements whose mask bit is b, in order.
  function Select<T>(s: seq<T>, mask: seq<bool>, b: bool): seq<T>
    requires |s| == |mask|
  {
    if s == [] then []
    else
      var n := |s| - 1;
      Select(s[..n], mask[..n], b) + if mask[n] == b then [s[n]] else []
  }

  // The unmarked elements, then the marked ones.
  function Arranged<T>(s: seq<T>, mask: seq<bool>): seq<T>
    requires |s| == |mask|
  {
    Select(s, mask, false) + Select(s, mask, true)
  }

  lemma SelectMore<T>(s: seq<T>, j: nat, mask: seq<bool>, bit: bool, b: bool)
    requires j < |s| && |mask| == j
    ensures Select(s[..j + 1], mask + [bit], b) == Select(s[..j], mask, b) + if bit == b then [s[j]] else []
  {
    assert s[..j + 1][..j] == s[..j] && (mask + [bit])[..j] == mask;
  }

  lemma SelectLast<T>(s: seq<T>, mask: seq<bool>, b: bool)
    requires |s| == |mask| > 0
    ensures var n := |s| - 1;
      var before := Select(s[..n], mask[..n], b);
      && |Select(s, mask, b)| == |before| + (if mask[n] == b then 1 else 0)
      && multiset(Select(s, mask, b)) == multiset(before) + if mask[n] == b then multiset{s[n]} else multiset{}
  {
  }

  lemma {:induction false} SelectSplits<T>(s: seq<T>, mask: seq<bool>)
    requires |s| == |mask|
    ensures multiset(Select(s, mask, false)) + multiset(Select(s, mask, true)) == multiset(s)
    ensures |Select(s, mask, false)| + |Select(s, mask, true)| == |s|
  {
    if s != [] {
      var n := |s| - 1;
      SelectSplits(s[..n], mask[..n]);
      assert multiset(s) == multiset(s[..n]) + multiset{s[n]} by {
        assert s == s[..n] + [s[n]];
      }
      SelectLast(s, mask, false);
      SelectLast(s, mask, true);
    }
  }

  // ----- One step of the scan, seen through roles -----

  function Next(args: seq<CStr>, i: nat): Option<CStr> {
    if i + 1 < |args| then Some(args[i + 1]) else None
  }

  function Takes(args: seq<CStr>, ind: nat, cur: Option<Cursor>, g: Grammar): (t: bool)
    requires Ready(args, ind, cur)
  {
    if cur.Some? then ShortTakes(args[ind], cur.value.off, Next(args, ind), g)
    else WordTakes(args[ind], Next(args, ind), g)
  }

  lemma {:induction false} TakesSomething(w: CStr, off: nat, next: Option<CStr>, g: Grammar)
    requires off < |w.chars| && ShortTakes(w, off, next, g)
    ensures next.Some?
    decreases |w.chars| - off
  {
    var a := ArityOf(g.head.opts, w.chars[off]);
    if a.Unknown? || a.NoArgument? {
      TakesSomething(w, off + 1, next, g);
    }
  }

  // A word is read character by character; when it is done, it and the argument it takes are behind the scan.
  lemma ShortAdvances(args: seq<CStr>, ind: nat, off: nat, g: Grammar)
    requires ind < |args| && off < |args[ind].chars|
    ensures var o := ShortStep(args, ind, off, g);
      var takes := ShortTakes(args[ind], off, Next(args, ind), g);
      if o.cur.Some? then
        o.ind == ind && InRange(o.cur, args[ind]) && o.cur.value.off == off + 1
        && ShortTakes(args[ind], off + 1, Next(args, ind), g) == takes
      else o.ind == ind + (if takes then 2 else 1) && o.ind <= |args|
  {
    hide ArityOf;
  }

  lemma WordAdvances(args: seq<CStr>, ind: nat, cur: Option<Cursor>, g: Grammar)
    requires Ready(args, ind, cur)
    ensures var o := WordStep(args, ind, cur, g);
      if o.cur.Some? then
        o.ind == ind && InRange(o.cur, args[ind])
        && o.cur.value.off > (if cur.Some? then cur.value.off else 0)
        && ShortTakes(args[ind], o.cur.value.off, Next(args, ind), g) == Takes(args, ind, cur, g)
      else o.ind == ind + (if Takes(args, ind, cur, g) then 2 else 1) && o.ind <= |args|
  {
    hide Lookup, ArityOf, ShortStep, ShortTakes;
    if cur.Some? {
      ShortAdvances(args, ind, cur.value.off, g);
    } else {
      var w := args[ind];
      if !TriesLong(w, g) || LongStep(args, ind, g).None? {
        ShortAdvances(args, ind, WordStart(w), g);
      } else {
        LongAdvances(args, ind, g);
      }
    }
  }

  lemma LongAdvances(args: seq<CStr>, ind: nat, g: Grammar)
    requires ind < |args| && IsWord(args[ind]) && TriesLong(args[ind], g) && LongStep(args, ind, g).Some?
    ensures var o := LongStep(args, ind, g).value;
      o.cur == None && o.ind == ind + (if WordTakes(args[ind], Next(args, ind), g) then 2 else 1) && o.ind <= |args|
  {
    hide LookupFrom, ShortTakes;
    var w := args[ind];
    LookupInside(g.longopts.value, Key(w), 0, NoMatch);
    IndexFromTail(w.chars, EQUALS, WordStart(w));
  }

  // ----- The roles behind the scan, and ahead of it -----

  // No option can be reported with the code that means the end.
  predicate Plainspoken(g: Grammar) {
    && !g.head.argOfOne && -1 !in g.head.opts
    && (g.longopts.Some? ==> forall x <- g.longopts.value :: x.flag.None? ==> x.val != END)
  }

  lemma WordIsReported(args: seq<CStr>, ind: nat, cur: Option<Cursor>, g: Grammar)
    requires Ready(args, ind, cur) && Plainspoken(g)
    ensures WordStep(args, ind, cur, g).code != END
  {
    hide LookupFrom;
    if cur.None? && TriesLong(args[ind], g) {
      LookupInside(g.longopts.value, Key(args[ind]), 0, NoMatch);
    }
  }

  // The scan stands at element j: inside an option word, or before an element nothing has claimed.
  ghost predicate Tracking(args: seq<CStr>, j: nat, cur: Option<Cursor>, g: Grammar) {
    && 1 <= j <= |args|
    && if cur.Some? then
         && j < |args| && InRange(cur, args[j]) && RoleOf(args, j, g) == Word
         && ShortTakes(args[j], cur.value.off, Next(args, j), g) == WordTakes(args[j], Next(args, j), g)
       else j < |args| ==> RoleOf(args, j, g) == FreshRole(args[j])
  }

  // A call that does not skip operands, seen from the whole vector: now is what is left of it, with the
  // operands met so far taken out.
  lemma StepRoles(now: seq<CStr>, ind: nat, args: seq<CStr>, j: nat, cur: Option<Cursor>, g: Grammar)
    requires 1 <= ind < |now| && j <= |args| && now[ind..] == args[j..]
    requires Tracking(args, j, cur, g) && Plainspoken(g) && !g.head.permute
    ensures var o := Step(now, ind, cur, g);
      var to := j + (o.ind - ind);
      && ind <= o.ind && to <= |args|
      && (forall k :: j <= k < to ==> RoleOf(args, k, g) != Operand)
      && (o.code != END ==> Tracking(args, to, o.cur, g))
      && (o.code == END && to < |args| ==> RoleOf(args, to, g) == Operand && Tracking(args, to + 1, None, g))
      && (o.code == END ==> o.arg == None)
  {
    hide WordStep, WordTakes, ShortTakes, StartsDash, Lone;
    assert now[ind] == now[ind..][0] == args[j] && |now| - ind == |args| - j;
    if j + 1 < |args| {
      assert now[ind + 1] == now[ind..][1] == args[j..][1] == args[j + 1];
    }
    if cur.Some? || FreshRole(args[j]) == Word {
      WordAdvances(now, ind, cur, g);
      WordIsReported(now, ind, cur, g);
      if WordTakes(args[j], Next(args, j), g) {
        assert j + 1 < |args| ==> RoleOf(args, j + 1, g) == Argument;
      }
    }
  }
}
