/** What one call of the option scanner reports and where it leaves the scan, as functions of the arguments. */
module GetoptSpec {
  import opened Prelude

  /** A plain char of the platform, signed. */
  newtype c8 = x: int | -128 <= x <= 127

  /** The characters before the terminating zero of a C string. */
  type text = s: seq<c8> | forall i :: 0 <= i < |s| ==> s[i] != 0

  const PLUS: c8 := 43
  const DASH: c8 := 45
  const COLON: c8 := 58
  const EQUALS: c8 := 61
  const QUESTION: int := 63
  const MISSING: int := 58
  const END: int := -1

  const REQUIRED_ARGUMENT: int := 1
  const OPTIONAL_ARGUMENT: int := 2

  /** One element of argv: two elements with the same characters are still different pointers. */
  class CStr {
    const chars: text

    constructor (chars: text)
      ensures this.chars == chars
    {
      this.chars := chars;
    }
  }

  /** A pointer into an element. */
  datatype Cursor = Cursor(elem: CStr, off: nat)

  /** A variable of the caller, to which a long option may store its value. */
  class Flag {
    var value: int

    constructor (value: int)
      ensures this.value == value
    {
      this.value := value;
    }
  }

  datatype XOption = XOption(name: Option<text>, hasArg: int, flag: Option<Flag>, val: int)

  predicate IsTerminator(x: XOption) {
    x.name.None? && x.flag.None? && x.hasArg == 0 && x.val == 0
  }

  // The caller's table ends with an all-zero entry.
  predicate Terminated(l: seq<XOption>) {
    l != [] && IsTerminator(l[|l| - 1])
  }

  // The character at i, the terminating zero included.
  function CharAt(s: seq<c8>, i: nat): c8 {
    if i < |s| then s[i] else 0
  }

  // The first occurrence of c at or after from, or the end.
  function IndexFrom(s: seq<c8>, c: c8, from: nat): (i: nat)
    requires from <= |s|
    ensures from <= i <= |s| && c !in s[from..i] && (i < |s| ==> s[i] == c)
    decreases |s| - from
  {
    if from == |s| || s[from] == c then from
    else
      var i := IndexFrom(s, c, from + 1);
      assert s[from..i] == [s[from]] + s[from + 1..i];
      i
  }

  lemma IndexFromTail(s: seq<c8>, c: c8, from: nat)
    requires from <= |s|
    ensures c in s[from..] <==> IndexFrom(s, c, from) < |s|
  {
    var i := IndexFrom(s, c, from);
    if i < |s| {
      assert s[from..][i - from] == c;
    } else {
      assert s[from..] == s[from..i];
    }
  }

  predicate StartsDash(e: CStr) {
    CharAt(e.chars, 0) == DASH
  }

  predicate Lone(e: CStr) {
    e.chars == [DASH] || e.chars == [DASH, DASH]
  }

  // ----- The option string -----

  predicate IsSign(c: c8) {
    c == PLUS || c == DASH
  }

  // How many leading characters of the option string are mode flags.
  function HeadLength(s: seq<c8>): (n: nat)
    ensures n <= |s| && (n < |s| ==> !IsSign(s[n]) && s[n] != COLON)
    ensures forall i :: 0 <= i < n ==> IsSign(s[i]) || s[i] == COLON
  {
    if s == [] || !(IsSign(s[0]) || s[0] == COLON) then 0 else 1 + HeadLength(s[1..])
  }

  // The last sign among the flags decides, or none does.
  function LastSign(head: seq<c8>): c8 {
    if head == [] then 0
    else if IsSign(head[|head| - 1]) then head[|head| - 1]
    else LastSign(head[..|head| - 1])
  }

  /** The modes and the option characters. */
  datatype Head = Head(permute: bool, argOfOne: bool, missingArg: bool, opts: text)

  function ParsedHead(s: text): Head {
    var h := s[..HeadLength(s)];
    Head(LastSign(h) == 0, LastSign(h) == DASH, COLON in h, s[|h|..])
  }

  datatype Grammar = Grammar(head: Head, longopts: Option<seq<XOption>>, only: bool)

  function GrammarOf(optstring: Option<text>, longopts: Option<seq<XOption>>, only: bool): (g: Grammar)
    ensures HeadLength(g.head.opts) == 0
  {
    Grammar(ParsedHead(if optstring.Some? then optstring.value else []), longopts, only)
  }

  predicate WellFormed(g: Grammar) {
    g.longopts.Some? ==> Terminated(g.longopts.value)
  }

  datatype Arity = Unknown | NoArgument | Required | Optional

  function ArityOf(opts: seq<c8>, c: c8): Arity {
    var d := IndexFrom(opts, c, 0);
    if d == |opts| then Unknown
    else if CharAt(opts, d + 1) != COLON then NoArgument
    else if CharAt(opts, d + 2) != COLON then Required
    else Optional
  }

  // ----- Long options -----

  datatype Match = NoMatch | Ambiguous | Found(i: nat)

  predicate Hit(x: XOption, key: seq<c8>) {
    x.name.Some? && key <= x.name.value
  }

  predicate Exact(x: XOption, key: seq<c8>) {
    x.name.Some? && key == x.name.value
  }

  // The scan of the table from entry i, with what was found before.
  function LookupFrom(l: seq<XOption>, key: seq<c8>, i: nat, before: Match): Match
    requires i <= |l|
    decreases |l| - i
  {
    if i == |l| || IsTerminator(l[i]) then before
    else if Exact(l[i], key) then Found(i)
    else if Hit(l[i], key) then LookupFrom(l, key, i + 1, if before == NoMatch then Found(i) else Ambiguous)
    else LookupFrom(l, key, i + 1, before)
  }

  function Lookup(l: seq<XOption>, key: seq<c8>): Match {
    LookupFrom(l, key, 0, NoMatch)
  }

  // ----- One call of the scanner -----

  /** Code, new xoptind, xoptcur and xoptarg, a new xoptopt, the long option matched, the one whose flag is
      stored, and whether argv is to be permuted. */
  datatype Outcome = Outcome(code: int, ind: int, cur: Option<Cursor>, arg: Option<Cursor>, opt: Option<c8>,
                             index: Option<nat>, store: Option<nat>, permute: bool)

  // The option whose flag is stored is an entry of the table.
  predicate StoreInside(g: Grammar, o: Outcome) {
    o.store.Some? ==> g.longopts.Some? && o.store.value < |g.longopts.value|
  }

  function Plain(code: int, ind: int, arg: Option<Cursor>): Outcome {
    Outcome(code, ind, None, arg, None, None, None, false)
  }

  predicate InRange(cur: Option<Cursor>, e: CStr) {
    cur.Some? && cur.value.elem == e && cur.value.off < |e.chars|
  }

  // Where the name of the option word starts.
  function WordStart(e: CStr): nat {
    if CharAt(e.chars, 1) == DASH then 2 else 1
  }

  predicate IsWord(e: CStr) {
    StartsDash(e) && !Lone(e)
  }

  predicate TriesLong(e: CStr, g: Grammar) {
    g.longopts.Some? && (CharAt(e.chars, 1) == DASH || g.only)
  }

  function Key(e: CStr): seq<c8>
    requires IsWord(e)
  {
    e.chars[WordStart(e)..IndexFrom(e.chars, EQUALS, WordStart(e))]
  }

  function MissingCode(g: Grammar): int {
    if g.head.missingArg then MISSING else QUESTION
  }

  // An option word read as a long option; None when it must be read as short options instead.
  function LongStep(args: seq<CStr>, ind: nat, g: Grammar): (r: Option<Outcome>)
    requires ind < |args| && IsWord(args[ind]) && g.longopts.Some?
    ensures r.Some? ==> StoreInside(g, r.value) && !r.value.permute
  {
    var w := args[ind];
    var l := g.longopts.value;
    match Lookup(l, Key(w))
    case NoMatch => if g.only then None else Some(Plain(QUESTION, ind + 1, None))
    case Ambiguous => Some(Plain(QUESTION, ind + 1, None))
    case Found(i) =>
      LookupInside(l, Key(w), 0, NoMatch);
      Some(LongFound(args, ind, g, i))
  }

  lemma {:induction false} LookupInside(l: seq<XOption>, key: seq<c8>, i: nat, before: Match)
    requires i <= |l| && (before.Found? ==> before.i < |l|)
    ensures LookupFrom(l, key, i, before).Found? ==> LookupFrom(l, key, i, before).i < |l|
    decreases |l| - i
  {
    if i < |l| && !IsTerminator(l[i]) && !Exact(l[i], key) {
      LookupInside(l, key, i + 1,
                   if !Hit(l[i], key) then before else if before == NoMatch then Found(i) else Ambiguous);
    }
  }

  function LongFound(args: seq<CStr>, ind: nat, g: Grammar, i: nat): Outcome
    requires ind < |args| && IsWord(args[ind]) && g.longopts.Some? && i < |g.longopts.value|
  {
    var w := args[ind];
    var x := g.longopts.value[i];
    var eq := IndexFrom(w.chars, EQUALS, WordStart(w));
    var code := if x.flag == None then x.val else 0;
    var store := if x.flag == None then None else Some(i);
    if x.hasArg != REQUIRED_ARGUMENT && x.hasArg != OPTIONAL_ARGUMENT then
      Outcome(code, ind + 1, None, None, None, Some(i), store, false)
    else if eq < |w.chars| then
      Outcome(code, ind + 1, None, Some(Cursor(w, eq + 1)), None, Some(i), store, false)
    else if x.hasArg == OPTIONAL_ARGUMENT then
      Outcome(code, ind + 1, None, None, None, Some(i), store, false)
    else if ind + 1 < |args| then
      Outcome(code, ind + 2, None, Some(Cursor(args[ind + 1], 0)), None, Some(i), store, false)
    else
      Outcome(MissingCode(g), ind + 1, None, None, None, Some(i), None, false)
  }

  // One short option, at offset off of the word.
  function ShortStep(args: seq<CStr>, ind: nat, off: nat, g: Grammar): (o: Outcome)
    requires ind < |args| && off < |args[ind].chars|
    ensures o.index == None && o.store == None && !o.permute
  {
    var w := args[ind];
    var c := w.chars[off];
    var a := ArityOf(g.head.opts, c);
    if a.Required? || a.Optional? then
      if off + 1 < |w.chars| then Plain(c as int, ind + 1, Some(Cursor(w, off + 1)))
      else if ind + 1 < |args| && (a.Required? || !StartsDash(args[ind + 1])) then
        Plain(c as int, ind + 2, Some(Cursor(args[ind + 1], 0)))
      else if a.Required? then Outcome(MissingCode(g), ind + 1, None, None, Some(c), None, None, false)
      else Plain(c as int, ind + 1, None)
    else
      var ended := off + 1 == |w.chars|;
      Outcome(if a.Unknown? then QUESTION else c as int,
              if ended then ind + 1 else ind,
              if ended then None else Some(Cursor(w, off + 1)),
              None, if a.Unknown? then Some(c) else None, None, None, false)
  }

  predicate Ready(args: seq<CStr>, ind: nat, cur: Option<Cursor>) {
    ind < |args| && if cur.Some? then InRange(cur, args[ind]) else IsWord(args[ind])
  }

  function WordStep(args: seq<CStr>, ind: nat, cur: Option<Cursor>, g: Grammar): (o: Outcome)
    requires Ready(args, ind, cur)
    ensures StoreInside(g, o)
  {
    var w := args[ind];
    if cur.Some? then ShortStep(args, ind, cur.value.off, g)
    else if TriesLong(w, g) && LongStep(args, ind, g).Some? then LongStep(args, ind, g).value
    else ShortStep(args, ind, WordStart(w), g)
  }

  // The scan from element ind: operands are skipped when argv is to be permuted at the end.
  function Visit(args: seq<CStr>, ind: nat, cur: Option<Cursor>, g: Grammar): (o: Outcome)
    requires ind <= |args| && (cur.Some? ==> ind < |args| && InRange(cur, args[ind]))
    ensures StoreInside(g, o)
    decreases |args| - ind
  {
    if ind == |args| then Outcome(END, ind, None, None, None, None, None, g.head.permute)
    else if cur.None? && !StartsDash(args[ind]) then
      if g.head.argOfOne then Plain(1, ind + 1, Some(Cursor(args[ind], 0)))
      else if g.head.permute then Visit(args, ind + 1, None, g)
      else Plain(END, ind, None)
    else if cur.None? && Lone(args[ind]) then
      Outcome(END, ind + 1, None, None, None, None, None, g.head.permute)
    else WordStep(args, ind, cur, g)
  }

  function Step(args: seq<CStr>, ind: int, cur: Option<Cursor>, g: Grammar): (o: Outcome)
    requires ind >= 1
    ensures StoreInside(g, o)
  {
    if ind >= |args| then Outcome(END, |args|, cur, None, None, None, None, g.head.permute)
    else Visit(args, ind, if InRange(cur, args[ind]) then cur else None, g)
  }
}
