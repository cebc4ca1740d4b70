/** The option scanner: the global parsing state, one call of the parser, and the permutation of argv. */
module GetoptScan {
  import opened Prelude
  import opened GetoptSpec
  import opened GetoptRoles
  import opened GetoptSplit
  import opened GetoptMeaning

  // The variables behind the flag pointers of the caller's table.
  ghost function Flags(longopts: Option<seq<XOption>>): set<Flag> {
    if longopts.None? then {}
    else set x | x in longopts.value && x.flag.Some? :: x.flag.value
  }

  class Getopt {
    var xoptind: int
    var xoptopt: int
    var xopterr: int
    var xoptreset: int
    var xoptarg: Option<Cursor>
    var xoptcur: Option<Cursor>

    constructor ()
      ensures xoptind == 0 && xopterr == 1 && xoptreset == 0 && xoptcur == None
    {
      xoptind, xoptopt, xopterr, xoptreset, xoptarg, xoptcur := 0, 0, 1, 0, None, None;
    }

    // The parsing state is what outcome o says; xoptopt keeps its value unless o sets it.
    ghost predicate Shows(o: Outcome, opt: int)
      reads this
    {
      xoptind == o.ind && xoptcur == o.cur && xoptarg == o.arg
      && xoptopt == if o.opt.Some? then o.opt.value as int else opt
    }

    // Where the next call starts: a reset, or an index below one, starts over.
    ghost function StartInd(): (i: int)
      reads this
      ensures i >= 1
    {
      if xoptreset != 0 || xoptind < 1 then 1 else xoptind
    }

    ghost function StartCur(): Option<Cursor>
      reads this
    {
      if xoptreset != 0 then None else xoptcur
    }

    ghost function StartOpt(): int
      reads this
    {
      if xoptreset != 0 then 0 else xoptopt
    }

    // The flags at the head of the option string.
    static method ParseHead(optstring: text) returns (h: Head)
      ensures h == ParsedHead(optstring) && HeadSays(optstring, h, HeadLength(optstring))
    {
      hide HeadSays;
      HeadMeans(optstring);
      var permute, argofone, missingarg := true, false, false;
      var p := 0;
      while p < |optstring| && (IsSign(optstring[p]) || optstring[p] == COLON)
        invariant p <= HeadLength(optstring)
        invariant permute == (LastSign(optstring[..p]) == 0)
        invariant argofone == (LastSign(optstring[..p]) == DASH)
        invariant missingarg == (COLON in optstring[..p])
      {
        assert optstring[..p + 1][..p] == optstring[..p];
        if IsSign(optstring[p]) {
          permute := false;
          argofone := optstring[p] == DASH;
        } else {
          missingarg := true;
        }
        p := p + 1;
      }
      h := Head(permute, argofone, missingarg, optstring[p..]);
    }

    // Whether the saved position still lies in the element.
    static method CursorInRange(cur: Cursor, elem: CStr) returns (inrange: bool)
      ensures inrange == InRange(Some(cur), elem)
    {
      inrange := false;
      var p := 0;
      while p < |elem.chars|
        invariant p <= |elem.chars|
        invariant cur.elem == elem ==> p <= cur.off
        invariant !inrange
      {
        if Cursor(elem, p) == cur {
          inrange := true;
          break;
        }
        p := p + 1;
      }
    }

    // The table entry an option name selects.
    static method FindLong(longopts: seq<XOption>, key: seq<c8>) returns (m: Match)
      requires Terminated(longopts)
      ensures m == Lookup(longopts, key)
    {
      var x, hitcnt, xo := 0, 0, 0;
      while !IsTerminator(longopts[x])
        invariant x < |longopts| && 0 <= hitcnt
        invariant var acc := if hitcnt == 0 then NoMatch else if hitcnt == 1 then Found(xo) else Ambiguous;
          LookupFrom(longopts, key, x, acc) == Lookup(longopts, key)
        decreases |longopts| - x
      {
        if longopts[x].name.Some? && key <= longopts[x].name.value {
          xo := x;
          hitcnt := hitcnt + 1;
          if |key| == |longopts[x].name.value| {
            hitcnt := 1;
            return Found(xo);
          }
        }
        x := x + 1;
      }
      m := if hitcnt == 0 then NoMatch else if hitcnt == 1 then Found(xo) else Ambiguous;
    }

    // Stores the value of a matched option, or hands it back.
    method Deliver(x: XOption, ghost longopts: Option<seq<XOption>>) returns (code: int)
      requires longopts.Some? && x in longopts.value
      modifies Flags(longopts)
      ensures code == if x.flag == None then x.val else 0
      ensures forall f :: f in Flags(longopts) ==>
        f.value == if x.flag == Some(f) then x.val else old(f.value)
    {
      if x.flag.None? {
        return x.val;
      }
      x.flag.value.value := x.val;
      return 0;
    }

    // An option word read as a long option, unless it has to be read as short ones.
    method LongOption(argc: int, argv: array<CStr>, g: Grammar)
      returns (handled: bool, code: int, index: Option<nat>)
      requires argc <= argv.Length && 1 <= xoptind < argc && IsWord(argv[xoptind])
      requires g.longopts.Some? && WellFormed(g) && xoptcur == None && xoptarg == None
      modifies this, Flags(g.longopts)
      ensures xoptreset == old(xoptreset) && xopterr == old(xopterr)
      ensures var o := LongStep(argv[..argc], old(xoptind), g);
        && handled == o.Some?
        && (o.None? ==> Shows(Plain(0, old(xoptind), None), old(xoptopt)))
        && (o.Some? ==> code == o.value.code && index == o.value.index && Shows(o.value, old(xoptopt)))
      ensures Stored(g, LongStep(argv[..argc], old(xoptind), g))
    {
      index := None;
      var elem := argv[xoptind];
      var p := WordStart(elem);
      var r := IndexFrom(elem.chars, EQUALS, p);
      var m := FindLong(g.longopts.value, elem.chars[p..r]);
      LookupInside(g.longopts.value, elem.chars[p..r], 0, NoMatch);
      if m.NoMatch? {
        if g.only {
          return false, 0, None;
        }
        xoptind := xoptind + 1;
        return true, QUESTION, None;
      } else if m.Ambiguous? {
        xoptind := xoptind + 1;
        return true, QUESTION, None;
      }
      var xo := g.longopts.value[m.i];
      index := Some(m.i);
      handled := true;
      xoptind := xoptind + 1;
      if xo.hasArg == REQUIRED_ARGUMENT || xo.hasArg == OPTIONAL_ARGUMENT {
        if r < |elem.chars| {
          xoptarg := Some(Cursor(elem, r + 1));
        } else if xo.hasArg == REQUIRED_ARGUMENT {
          if xoptind < argc {
            xoptarg := Some(Cursor(argv[xoptind], 0));
            xoptind := xoptind + 1;
          } else {
            code := if g.head.missingArg then MISSING else QUESTION;
            return;
          }
        }
      }
      code := Deliver(xo, g.longopts);
    }

    // A matched flag holds its value, the others are as before.
    twostate predicate Stored(g: Grammar, o: Option<Outcome>)
      requires o.Some? ==> StoreInside(g, o.value)
      reads Flags(g.longopts)
    {
      forall f :: f in Flags(g.longopts) ==>
        f.value ==
        if o.Some? && o.value.store.Some? && g.longopts.value[o.value.store.value].flag == Some(f)
        then g.longopts.value[o.value.store.value].val
        else old(f.value)
    }

    // One short option, at offset p of the current element.
    method ShortOption(argc: int, argv: array<CStr>, p: nat, g: Grammar) returns (code: int)
      requires argc <= argv.Length && 1 <= xoptind < argc && p < |argv[xoptind].chars|
      modifies this
      ensures xoptreset == old(xoptreset) && xopterr == old(xopterr)
      ensures var o := ShortStep(argv[..argc], old(xoptind), p, g);
        code == o.code && Shows(o, old(xoptopt))
    {
      var elem := argv[xoptind];
      var c := elem.chars[p];
      var opts := g.head.opts;
      var d := IndexFrom(opts, c, 0);
      xoptarg := None;
      if d < |opts| && CharAt(opts, d + 1) == COLON {
        xoptind := xoptind + 1;
        xoptcur := None;
        var required := CharAt(opts, d + 2) != COLON;
        if p + 1 < |elem.chars| {
          xoptarg := Some(Cursor(elem, p + 1));
        } else if xoptind < argc && (required || !StartsDash(argv[xoptind])) {
          xoptarg := Some(Cursor(argv[xoptind], 0));
          xoptind := xoptind + 1;
        } else if required {
          xoptopt := c as int;
          return if g.head.missingArg then MISSING else QUESTION;
        }
        return c as int;
      }
      if p + 1 < |elem.chars| {
        xoptcur := Some(Cursor(elem, p + 1));
      } else {
        xoptind := xoptind + 1;
        xoptcur := None;
      }
      if d == |opts| {
        xoptopt := c as int;
        return QUESTION;
      }
      return c as int;
    }

    // An option word, from its start or from the saved position inside it.
    method ScanWord(argc: int, argv: array<CStr>, g: Grammar) returns (code: int, index: Option<nat>)
      requires 1 <= argc <= argv.Length && WellFormed(g) && xoptarg == None
      requires 1 <= xoptind && Ready(argv[..argc], xoptind, xoptcur)
      modifies this, Flags(g.longopts)
      ensures xoptreset == old(xoptreset) && xopterr == old(xopterr)
      ensures var o := WordStep(argv[..argc], old(xoptind), old(xoptcur), g);
        code == o.code && index == o.index && !o.permute && Shows(o, old(xoptopt)) && Stored(g, Some(o))
    {
      hide ShortStep, LongStep, LongFound, Lookup, Key, IndexFrom, ArityOf;
      index := None;
      var p := WordStart(argv[xoptind]);
      if g.longopts.Some? && xoptcur.None? && (CharAt(argv[xoptind].chars, 1) == DASH || g.only) {
        var handled;
        handled, code, index := LongOption(argc, argv, g);
        if handled {
          return;
        }
      }
      if xoptcur.Some? {
        p := xoptcur.value.off;
      }
      code := ShortOption(argc, argv, p, g);
      index := None;
    }

    // Skips or reports operands up to the next option word, and reads it.
    method ScanFrom(argc: int, argv: array<CStr>, g: Grammar) returns (code: int, index: Option<nat>, permute: bool)
      requires 1 <= argc <= argv.Length && WellFormed(g) && xoptarg == None && 1 <= xoptind < argc
      requires xoptcur.Some? ==> InRange(xoptcur, argv[xoptind])
      modifies this, Flags(g.longopts)
      ensures xoptreset == old(xoptreset) && xopterr == old(xopterr)
      ensures var o := Visit(argv[..argc], old(xoptind), old(xoptcur), g);
        code == o.code && index == o.index && permute == o.permute && Shows(o, old(xoptopt)) && Stored(g, Some(o))
    {
      hide WordStep, Lone, LongStep;
      ghost var args := argv[..argc];
      while xoptind < argc
        invariant 1 <= xoptind <= argc && xoptarg == None && xoptopt == old(xoptopt)
        invariant xoptreset == old(xoptreset) && xopterr == old(xopterr)
        invariant xoptcur.Some? ==> xoptind < argc && InRange(xoptcur, args[xoptind])
        invariant xoptind == argc ==> xoptcur == None
        invariant Visit(args, xoptind, xoptcur, g) == Visit(args, old(xoptind), old(xoptcur), g)
        invariant forall f :: f in Flags(g.longopts) ==> f.value == old(f.value)
        decreases argc - xoptind
      {
        if xoptcur.None? && !StartsDash(argv[xoptind]) {
          if g.head.argOfOne {
            xoptarg := Some(Cursor(argv[xoptind], 0));
            xoptind := xoptind + 1;
            return 1, None, false;
          } else if g.head.permute {
            xoptind := xoptind + 1;
            continue;
          }
          return END, None, false;
        }
        if xoptcur.None? && Lone(argv[xoptind]) {
          xoptind := xoptind + 1;
          break;
        }
        code, index := ScanWord(argc, argv, g);
        return code, index, false;
      }
      return END, None, g.head.permute;
    }

    // Forgets the position if a reset is wanted, and never starts at the program name.
    method Begin()
      modifies this
      ensures xoptreset == 0 && xopterr == old(xopterr)
      ensures xoptind == old(StartInd()) && xoptcur == old(StartCur()) && xoptopt == old(StartOpt())
    {
      if xoptreset != 0 {
        xoptreset, xoptcur, xoptind, xoptarg, xoptopt := 0, None, 0, None, 0;
      }
      if xoptind < 1 {
        xoptind := 1;
      }
    }

    // One call of the parser up to the point where argv may have to be permuted.
    method Scan(argc: int, argv: array<CStr>, optstring: Option<text>, longopts: Option<seq<XOption>>, only: bool)
      returns (code: int, index: Option<nat>, permute: bool, head: Head)
      requires 1 <= argc <= argv.Length && (longopts.Some? ==> Terminated(longopts.value))
      modifies this, Flags(longopts)
      ensures xoptreset == 0 && xopterr == old(xopterr)
      ensures var g := GrammarOf(optstring, longopts, only);
        var o := Step(argv[..argc], old(StartInd()), old(StartCur()), g);
        && head == g.head && StepSays(argv[..argc], old(StartInd()), old(StartCur()), g, o)
        && code == o.code && index == o.index && permute == o.permute
        && Shows(o, old(StartOpt()))
        && Stored(g, Some(o))
    {
      hide ParsedHead, Visit, StepSays, HeadSays, HeadLength, Lookup, LookupFrom, LongStep, WordStep, ShortStep;
      StepMeans(argv[..argc], StartInd(), StartCur(), GrammarOf(optstring, longopts, only));
      Begin();
      head := ParseHead(if optstring.Some? then optstring.value else []);
      xoptarg := None;
      if xoptind >= argc {
        xoptind := argc;
        return END, None, head.permute, head;
      }
      if xoptcur.Some? {
        var inrange := CursorInRange(xoptcur.value, argv[xoptind]);
        if !inrange {
          xoptcur := None;
        }
      }
      code, index, permute := ScanFrom(argc, argv, Grammar(head, longopts, only));
    }

    // ----- Permuting argv -----

    // The option string with its signs replaced by a single plus.
    static method PermutingString(optstring: Option<text>) returns (pstr: text)
      ensures pstr == PlusString(optstring)
    {
      if optstring.None? {
        return [PLUS];
      }
      var s := optstring.value;
      var p := 0;
      while p < |s| && IsSign(s[p])
        invariant p <= |s| && PlusString(Some(s[p..])) == PlusString(optstring)
      {
        assert s[p..][1..] == s[p + 1..];
        p := p + 1;
      }
      pstr := [PLUS] + s[p..];
    }

    // The table with every flag dropped and every value made the same.
    static method CloneOptions(longopts: Option<seq<XOption>>) returns (x: Option<seq<XOption>>)
      requires longopts.Some? ==> Terminated(longopts.value)
      ensures x == Cloned(longopts) && Flags(x) == {} && (x.Some? ==> Terminated(x.value))
    {
      if longopts.None? {
        return None;
      }
      var l := longopts.value;
      var cnt := 0;
      while !IsTerminator(l[cnt])
        invariant cnt < |l| && forall i :: 0 <= i < cnt ==> !IsTerminator(l[i])
        decreases |l| - cnt
      {
        cnt := cnt + 1;
      }
      Entries(l, cnt);
      var c: seq<XOption> := [];
      var i := 0;
      while i < cnt
        invariant i <= cnt && c == seq(i, k requires 0 <= k < i => CloneOf(l[k]))
      {
        c := c + [CloneOf(l[i])];
        i := i + 1;
      }
      x := Some(c + [ZERO_OPTION]);
    }

    // Closes the gap at from: the elements behind it, up to n, move one place forward.
    static method MoveForward(argv: array<CStr>, from: nat, n: nat)
      requires from < n <= argv.Length
      modifies argv
      ensures argv[..n - 1] == old(argv[..n][..from] + argv[..n][from + 1..])
      ensures forall k :: n <= k < argv.Length ==> argv[k] == old(argv[k])
    {
      var i := from + 1;
      while i < n
        invariant from + 1 <= i <= n
        invariant forall k :: 0 <= k < argv.Length ==>
          argv[k] == old(if from <= k < i - 1 then argv[k + 1] else argv[k])
      {
        argv[i - 1] := argv[i];
        i := i + 1;
      }
    }

    // Puts the first count elements of nonopts behind the first n of argv.
    static method Append(argv: array<CStr>, n: nat, nonopts: array<CStr>, count: nat)
      requires argv != nonopts && count <= nonopts.Length && n + count <= argv.Length
      modifies argv
      ensures argv[..n + count] == old(argv[..n]) + nonopts[..count]
      ensures argv[n + count..] == old(argv[n + count..])
    {
      var i := 0;
      while i < count
        invariant 0 <= i <= count
        invariant argv[..n + i] == old(argv[..n]) + nonopts[..i]
        invariant argv[n + count..] == old(argv[n + count..])
      {
        argv[n + i] := nonopts[i];
        i := i + 1;
      }
    }

    // One round of the permutation: scan once, and take out the element a scan has stopped at.
    method PermuteOnce(n: nat, argv: array<CStr>, pstr: text, x: Option<seq<XOption>>, only: bool,
                       nonopts: array<CStr>, count: nat, ghost args: seq<CStr>, ghost mask: seq<bool>)
      returns (stop: bool, n': nat, count': nat, ghost mask': seq<bool>)
      requires n <= argv.Length && count <= nonopts.Length && argv != nonopts && n + count <= nonopts.Length
      requires (x.Some? ==> Terminated(x.value)) && Flags(x) == {}
      requires Progress(args, argv[..n], StartInd(), StartCur(), nonopts[..count], mask, GrammarOf(Some(pstr), x, only))
      modifies this, argv, nonopts
      ensures n' <= n && n' + count' == n + count
      ensures forall k :: n <= k < argv.Length ==> argv[k] == old(argv[k])
      ensures xopterr == old(xopterr) && xoptreset == 0
      ensures 1 <= StartInd() <= n'
      ensures var g := GrammarOf(Some(pstr), x, only);
        if stop then xoptcur == None && Arrived(args, argv[..n'] + nonopts[..count'], xoptind, xoptarg, mask', g)
        else Progress(args, argv[..n'], StartInd(), StartCur(), nonopts[..count'], mask', g)
      ensures !stop ==>
        || n' - StartInd() < n - old(StartInd())
        || (n' - StartInd() == n - old(StartInd())
            && Left(argv[..n'], StartInd(), StartCur()) < old(Left(argv[..n], StartInd(), StartCur())))
    {
      hide Progress, Arrived, Step, GrammarOf, Left, Plainspoken, Falses, Stored;
      ghost var g := GrammarOf(Some(pstr), x, only);
      ghost var now, ind := argv[..n], StartInd();
      ghost var out := nonopts[..count];
      StepProgresses(args, now, ind, StartCur(), out, mask, g);
      var code, index, permute, head := Scan(n, argv, Some(pstr), x, only);
      mask' := mask + Falses(xoptind - ind);
      stop, n', count' := false, n, count;
      if code == END {
        if xoptind < n {
          mask' := mask' + [true];
          nonopts[count] := argv[xoptind];
          assert nonopts[..count + 1] == out + [now[xoptind]];
          MoveForward(argv, xoptind, n);
          count', n' := count + 1, n - 1;
          xoptcur := None;
        } else {
          stop := true;
        }
      }
    }

    // Moves the operands to the end of argv by scanning it over and over; xoptind ends at the first of them.
    method Permute(argc: int, argv: array<CStr>, optstring: Option<text>, longopts: Option<seq<XOption>>, only: bool)
      returns (ghost mask: seq<bool>)
      requires 1 <= argc <= argv.Length && (longopts.Some? ==> Terminated(longopts.value))
      modifies this, argv
      ensures |mask| == argc && !mask[0]
      ensures argv[..argc] == Arranged(old(argv[..argc]), mask) && argv[argc..] == old(argv[argc..])
      ensures xoptind == |Select(old(argv[..argc]), mask, false)|
      ensures xoptcur == None && xoptreset == 0 && xopterr == old(xopterr)
      ensures var g := PermuteGrammar(optstring, longopts, only);
        Plainspoken(g) ==> mask == OperandMask(old(argv[..argc]), g) && xoptarg == None
    {
      hide Progress, Arrived, GrammarOf, PlusString, Cloned, Left, Plainspoken, Arranged, Select, OperandMask, Flags,
        Terminated;
      var pstr := PermutingString(optstring);
      var x := CloneOptions(longopts);
      ghost var g := GrammarOf(Some(pstr), x, only);
      ghost var args := argv[..argc];
      PermuteGrammarScans(optstring, longopts, only);
      ProgressStarts(args, g);
      var first := argv[0];
      var nonopts := new CStr[argc](_ => first);
      var n: nat, nonoptind: nat := argc, 0;
      var oldXopterr := xopterr;
      xopterr := 0;
      xoptreset := 1;
      mask := [false];
      var stop := false;
      while !stop
        invariant 1 <= StartInd() <= n && n + nonoptind == argc && xopterr == 0
        invariant forall k :: argc <= k < argv.Length ==> argv[k] == old(argv[k])
        invariant !stop ==> Progress(args, argv[..n], StartInd(), StartCur(), nonopts[..nonoptind], mask, g)
        invariant stop ==> Arrived(args, argv[..argc], xoptind, xoptarg, mask, g) && xoptcur == None && xoptreset == 0
        decreases !stop, n - StartInd(), Left(argv[..n], StartInd(), StartCur())
      {
        stop, n, nonoptind, mask := PermuteOnce(n, argv, pstr, x, only, nonopts, nonoptind, args, mask);
        if stop {
          Append(argv, n, nonopts, nonoptind);
        }
      }
      xopterr := oldXopterr;
      ArrivedMeans(args, argv[..argc], xoptind, xoptarg, mask, g);
    }

    // One call: an option, an operand, or the end, at which argv is permuted unless the caller forbids it.
    method XGetopt(argc: int, argv: array<CStr>, optstring: Option<text>, longopts: Option<seq<XOption>>, only: bool)
      returns (code: int, index: Option<nat>, ghost mask: seq<bool>)
      requires 1 <= argc <= argv.Length && (longopts.Some? ==> Terminated(longopts.value))
      modifies this, argv, Flags(longopts)
      ensures xoptreset == 0 && xopterr == old(xopterr) && argv[argc..] == old(argv[argc..])
      ensures var g := GrammarOf(optstring, longopts, only);
        var args := old(argv[..argc]);
        var o := Step(args, old(StartInd()), old(StartCur()), g);
        && code == o.code && index == o.index && Stored(g, Some(o))
        && StepSays(args, old(StartInd()), old(StartCur()), g, o)
        && if !o.permute then argv[..argc] == args && Shows(o, old(StartOpt()))
           else
             && |mask| == argc && !mask[0] && argv[..argc] == Arranged(args, mask)
             && xoptind == |Select(args, mask, false)| && xoptcur == None
             && (-1 !in g.head.opts ==> mask == OperandMask(args, g) && xoptarg == None)
    {
      hide ParsedHead, Arranged, Select, OperandMask, Plainspoken, PermuteGrammar, RoleOf, Visit, StepSays;
      ghost var g := GrammarOf(optstring, longopts, only);
      ghost var args := argv[..argc];
      var permute, head;
      code, index, permute, head := Scan(argc, argv, optstring, longopts, only);
      mask := [];
      if permute {
        PermuteMeans(args, g);
        mask := Permute(argc, argv, Some(head.opts), longopts, only);
      }
    }
  }
}
