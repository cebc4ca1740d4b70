/**
 When callbacks can come to be entered out of order. An operation is outstanding from the moment its submission is
 accepted until its callback is entered; with two threads, any two outstanding operations of one endpoint and
 direction can be reversed without new work, and nothing less can.
 */
module MuxOvertaking {
  import opened Prelude
  import opened MuxModel
  import opened MuxMoves
  import opened MuxInvariant
  import opened MuxTheorems
  import opened MuxCallbacks
  import opened MuxRuns
  import opened MuxDrain

  // ----- Counting what is outstanding -----

  function One(b: bool): nat {
    if b then 1 else 0
  }

  // The thread has locked the endpoint to queue an operation of ep and d.
  predicate Accepts(pc: Pc, ep: Ep, d: Dir) {
    pc.Appending? && Belongs(pc.op, ep, d)
  }

  function Accepting(pcs: seq<Pc>, ep: Ep, d: Dir): nat {
    if pcs == [] then 0 else One(Accepts(pcs[0], ep, d)) + Accepting(pcs[1..], ep, d)
  }

  function Carrying(pcs: seq<Pc>, ep: Ep, d: Dir): nat {
    if pcs == [] then 0 else One(CallsFor(pcs[0], ep, d)) + Carrying(pcs[1..], ep, d)
  }

  // The operations of ep and d accepted so far, the ones about to be queued included.
  function Accepted(s: State, ep: Ep, d: Dir): nat {
    |Stamps(s.submitted, ep, d)| + Accepting(s.pc, ep, d)
  }

  // At least n accepted operations of ep and d have not had their callbacks.
  predicate Outstanding(s: State, ep: Ep, d: Dir, n: nat) {
    Accepted(s, ep, d) >= |Stamps(s.called, ep, d)| + n
  }

  lemma {:induction false} TalliesUpdate(pcs: seq<Pc>, t: nat, pc: Pc, ep: Ep, d: Dir)
    requires t < |pcs|
    ensures Accepting(pcs[t := pc], ep, d) + One(Accepts(pcs[t], ep, d))
      == Accepting(pcs, ep, d) + One(Accepts(pc, ep, d))
    ensures Carrying(pcs[t := pc], ep, d) + One(CallsFor(pcs[t], ep, d))
      == Carrying(pcs, ep, d) + One(CallsFor(pc, ep, d))
  {
    hide Accepts, CallsFor;
    var qs := pcs[t := pc];
    if t == 0 {
      assert qs[1..] == pcs[1..];
    } else {
      assert qs[1..] == pcs[1..][t - 1 := pc];
      TalliesUpdate(pcs[1..], t - 1, pc, ep, d);
    }
  }

  lemma {:induction false} CarryingTwo(pcs: seq<Pc>, u: nat, v: nat, ep: Ep, d: Dir)
    requires u < v < |pcs| && CallsFor(pcs[u], ep, d) && CallsFor(pcs[v], ep, d)
    ensures Carrying(pcs, ep, d) >= 2
  {
    hide CallsFor;
    if u == 0 {
      CarryingOne(pcs[1..], v - 1, ep, d);
    } else {
      CarryingTwo(pcs[1..], u - 1, v - 1, ep, d);
    }
  }

  lemma {:induction false} CarryingOne(pcs: seq<Pc>, u: nat, ep: Ep, d: Dir)
    requires u < |pcs| && CallsFor(pcs[u], ep, d)
    ensures Carrying(pcs, ep, d) >= 1
  {
    hide CallsFor;
    if u > 0 {
      CarryingOne(pcs[1..], u - 1, ep, d);
    }
  }

  lemma {:induction false} CarryingFew(pcs: seq<Pc>, ep: Ep, d: Dir)
    ensures (forall u :: 0 <= u < |pcs| ==> !CallsFor(pcs[u], ep, d)) ==> Carrying(pcs, ep, d) == 0
    ensures (forall u, v :: 0 <= u < v < |pcs| ==> !(CallsFor(pcs[u], ep, d) && CallsFor(pcs[v], ep, d))) ==>
      Carrying(pcs, ep, d) <= 1
  {
    hide CallsFor;
    if pcs != [] {
      CarryingFew(pcs[1..], ep, d);
      assert forall u :: 0 <= u < |pcs[1..]| ==> pcs[1..][u] == pcs[u + 1];
    }
  }

  lemma {:induction false} AcceptingNone(pcs: seq<Pc>, ep: Ep, d: Dir)
    requires forall u :: 0 <= u < |pcs| ==> !pcs[u].Appending?
    ensures Accepting(pcs, ep, d) == 0
  {
    if pcs != [] {
      AcceptingNone(pcs[1..], ep, d);
    }
  }

  // Which moves accept, and which queue.
  lemma StepAccepts(s: State, t: Tid, a: Action)
    requires Enabled(s, t, a) && !a.Submit?
    ensures var r := NextState(s, t, a);
      t < |s.pc| == |r.pc| && !r.pc[t].Appending? && (s.pc[t].Appending? <==> a.Append?)
  {
    hide PerformResult, Reportable, Disarm, Nonempty, Report;
  }

  // Accepting happens in submissions only, and a callback settles one operation.
  lemma AcceptedStep(s: State, t: Tid, a: Action, ep: Ep, d: Dir)
    requires Enabled(s, t, a) && !a.Submit?
    ensures Accepted(NextState(s, t, a), ep, d) == Accepted(s, ep, d)
  {
    hide Enabled, NextState, Stamps, PostedBy;
    var r := NextState(s, t, a);
    StepAccepts(s, t, a);
    StepCalls(s, t, a);
    StepLists(s, t, a);
    TalliesUpdate(s.pc, t, r.pc[t], ep, d);
    if a.Append? {
      var o := s.pc[t].op.(id := |s.submitted|);
      StampsAppend(s.submitted, [o], ep, d);
      StampsOne(o, o, ep, d);
    }
  }

  lemma CalledStep(s: State, t: Tid, a: Action, ep: Ep, d: Dir)
    requires Enabled(s, t, a)
    ensures var r := NextState(s, t, a);
      && t < |s.pc|
      && |Stamps(r.called, ep, d)| == |Stamps(s.called, ep, d)| + One(a.Call? && CallsFor(s.pc[t], ep, d))
      && |Stamps(r.popped, ep, d)|
        == |Stamps(s.popped, ep, d)| + One(a.PopCompleted? && s.completion != [] && Belongs(s.completion[0], ep, d))
  {
    hide Enabled, NextState, Stamps, PostedBy;
    StepCalls(s, t, a);
    StepLists(s, t, a);
    assert s.called + [] == s.called;
    if a.Call? {
      StampsAppend(s.called, [s.pc[t].op], ep, d);
      StampsOne(s.pc[t].op, s.pc[t].op, ep, d);
    } else if a.PopCompleted? && s.completion != [] {
      StampsAppend(s.popped, [s.completion[0]], ep, d);
      StampsOne(s.completion[0], s.completion[0], ep, d);
    }
  }

  lemma CarriedStep(s: State, t: Tid, a: Action, ep: Ep, d: Dir)
    requires Enabled(s, t, a)
    ensures Carrying(NextState(s, t, a).pc, ep, d) + One(t < |s.pc| && a.Call? && CallsFor(s.pc[t], ep, d))
      == Carrying(s.pc, ep, d) + One(a.PopCompleted? && s.completion != [] && Belongs(s.completion[0], ep, d))
  {
    hide Enabled, NextState, Carrying;
    var r := NextState(s, t, a);
    StepCalls(s, t, a);
    TalliesUpdate(s.pc, t, r.pc[t], ep, d);
    CallOfFits(s.pc[t]);
    CallOfFits(r.pc[t]);
  }

  lemma CallOfFits(pc: Pc)
    ensures forall o :: o in CallOf(pc) <==> pc == Calling(o)
  {
  }

  // Every operation taken has been called or is carried.
  lemma {:induction false} TakenIsCalledOrCarried(ms: seq<Move>, s: State, ep: Ep, d: Dir)
    requires Reaches(ms, s)
    ensures |Stamps(s.popped, ep, d)| == |Stamps(s.called, ep, d)| + Carrying(s.pc, ep, d)
    decreases |ms|
  {
    hide NextState, Enabled, Carrying, Stamps;
    if ms == [] {
      CarryingFew(s.pc, ep, d);
      NoStamps(ep, d);
    } else {
      var init, last := ms[..|ms| - 1], ms[|ms| - 1];
      var r :| Reaches(init, r) && Enabled(r, last.t, last.a) && s == NextState(r, last.t, last.a);
      TakenIsCalledOrCarried(init, r, ep, d);
      CalledStep(r, last.t, last.a, ep, d);
      CarriedStep(r, last.t, last.a, ep, d);
    }
  }

  // ----- Two outstanding operations are needed -----

  // Some continuation of n threads without new work enters callbacks out of order.
  ghost predicate CanReverse(ms: seq<Move>, n: nat, ep: Ep, d: Dir) {
    exists ms', r :: Reaches(ms', r) && |r.pc| == n && Continues(ms, ms') && !InOrder(r, ep, d)
  }

  lemma {:induction false} OutstandingBefore(ms: seq<Move>, s: State, ms': seq<Move>, r: State, ep: Ep, d: Dir, n: nat)
    requires Reaches(ms, s) && Reaches(ms', r) && |r.pc| == |s.pc| && Continues(ms, ms')
    ensures Accepted(r, ep, d) == Accepted(s, ep, d)
    ensures Outstanding(r, ep, d, n) ==> Outstanding(s, ep, d, n)
    decreases |ms'|
  {
    hide Enabled, NextState, Accepted, Stamps;
    if ms == ms' {
      RunDetermines(ms, r, s);
    } else {
      var init, last := ms'[..|ms'| - 1], ms'[|ms'| - 1];
      var q :| Reaches(init, q) && Enabled(q, last.t, last.a) && r == NextState(q, last.t, last.a);
      StepThread(q, last.t, last.a);
      OutstandingBefore(ms, s, init, q, ep, d, n);
      AcceptedStep(q, last.t, last.a, ep, d);
      CalledStep(q, last.t, last.a, ep, d);
    }
  }

  // Whoever overtakes and whoever is overtaken are two threads with two outstanding operations.
  lemma OvertakingNeedsTwo(ms: seq<Move>, s: State, t: Tid, ep: Ep, d: Dir)
    requires Reaches(ms, s) && Overtakes(s, t, ep, d)
    ensures |s.pc| >= 2 && Outstanding(s, ep, d, 2)
  {
    hide Reaches, Carrying, Stamps;
    var u :| 0 <= u < |s.pc| && CallsFor(s.pc[u], ep, d) && s.pc[u].op.id < s.pc[t].op.id;
    CarryingTwo(s.pc, if u < t then u else t, if u < t then t else u, ep, d);
    TakenIsCalledOrCarried(ms, s, ep, d);
    PoppedInOrder(ms, s, ep, d);
  }

  lemma {:induction false} ReversedNeedsTwo(ms: seq<Move>, s: State, ms': seq<Move>, r: State, ep: Ep, d: Dir)
    requires Reaches(ms, s) && InOrder(s, ep, d)
    requires Reaches(ms', r) && |r.pc| == |s.pc| && Continues(ms, ms') && !InOrder(r, ep, d)
    ensures |s.pc| >= 2 && Outstanding(s, ep, d, 2)
    decreases |ms'|
  {
    hide Enabled, NextState, InOrder, Overtakes, Outstanding, CallsOk, DistinctIds, Ascending, Stamps;
    if ms == ms' {
      RunDetermines(ms, r, s);
    } else {
      var init, last := ms'[..|ms'| - 1], ms'[|ms'| - 1];
      var q :| Reaches(init, q) && Enabled(q, last.t, last.a) && r == NextState(q, last.t, last.a);
      StepThread(q, last.t, last.a);
      if InOrder(q, ep, d) {
        OrderFacts(init, q, ep, d);
        OrderFacts(ms', r, ep, d);
        StepOrder(q, last.t, last.a, ep, d);
        OvertakingNeedsTwo(init, q, last.t, ep, d);
        OutstandingBefore(ms, s, init, q, ep, d, 2);
      } else {
        ReversedNeedsTwo(ms, s, init, q, ep, d);
      }
    }
  }

  // ----- And they are enough -----

  lemma CanReverseMore(ms: seq<Move>, m: seq<Move>, n: nat, ep: Ep, d: Dir)
    requires Continues(ms, m) && CanReverse(m, n, ep, d)
    ensures CanReverse(ms, n, ep, d)
  {
    hide Reaches, Continues, InOrder;
    var ms', r :| Reaches(ms', r) && |r.pc| == n && Continues(m, ms') && !InOrder(r, ep, d);
    ContinuesMore(ms, m, ms');
  }

  // With something accepted and not taken, rounds of w bring an operation of ep and d to the head of the
  // completion list, whether or not f is on its way to a callback.
  lemma {:induction false} BringToFront(ms: seq<Move>, s: State, w: Tid, f: Option<Tid>, ep: Ep, d: Dir)
    returns (ms': seq<Move>, r: State)
    requires Reaches(ms, s) && Resting(s, f) && w < |s.pc| && s.pc[w] == Idle
    requires |Stamps(s.popped, ep, d)| < |Stamps(s.submitted, ep, d)|
    ensures Reaches(ms', r) && Continues(ms, ms') && r.pc == s.pc && r.submitted == s.submitted
    ensures r.completion != [] && Belongs(r.completion[0], ep, d)
    ensures |Stamps(r.popped, ep, d)| == |Stamps(s.popped, ep, d)|
    decreases if |s.popped| <= |s.submitted| then |s.submitted| - |s.popped| else 0, Distance(s)
  {
    hide Reaches, Continues, Drained, Stamps;
    if s.completion != [] && Belongs(s.completion[0], ep, d) {
      ContinuesSelf(ms);
      ms', r := ms, s;
    } else {
      if Drained(s) {
        DrainedIsTaken(ms, s, f, ep, d);
      }
      var m, q := DrainStep(ms, s, w, f);
      OtherPopped(s.popped, s.completion, ep, d);
      TakenAtMostSubmitted(ms, s);
      TakenAtMostSubmitted(m, q);
      ms', r := BringToFront(m, q, w, f, ep, d);
      ContinuesMore(ms, m, ms');
    }
  }

  lemma DrainedIsTaken(ms: seq<Move>, s: State, f: Option<Tid>, ep: Ep, d: Dir)
    requires Reaches(ms, s) && Resting(s, f) && Drained(s)
    ensures Stamps(s.submitted, ep, d) == Stamps(s.popped, ep, d)
  {
    hide Reaches, Stamps;
    ReachableInv(ms, s);
    RestingIsOpen(ms, s, f);
    assert Accounted(s, ep, d);
    assert Pending(s, ep, d) == [];
    NoStamps(ep, d);
  }

  lemma OtherPopped(popped: seq<Overlapped>, completion: seq<Overlapped>, ep: Ep, d: Dir)
    requires completion != [] ==> !Belongs(completion[0], ep, d)
    ensures Stamps(popped + (if completion == [] then [] else [completion[0]]), ep, d) == Stamps(popped, ep, d)
  {
    hide Stamps;
    if completion == [] {
      assert popped + [] == popped;
    } else {
      StampsAppend(popped, [completion[0]], ep, d);
      StampsOne(completion[0], completion[0], ep, d);
    }
  }

  // u carries an operation and another one is accepted and not taken: w takes and calls it first.
  lemma OneCarriedReverses(ms: seq<Move>, s: State, w: Tid, u: Tid, ep: Ep, d: Dir)
    requires Reaches(ms, s) && Resting(s, Some(u)) && CallsFor(s.pc[u], ep, d) && w < |s.pc| && s.pc[w] == Idle
    requires |Stamps(s.popped, ep, d)| < |Stamps(s.submitted, ep, d)|
    ensures CanReverse(ms, |s.pc|, ep, d)
  {
    hide Reaches, Continues, Stamps, InOrder;
    var m, q := BringToFront(ms, s, w, Some(u), ep, d);
    PopBehindReverses(m, q, ep, d, w, u);
    var more := m + [Move(w, PopCompleted), Move(w, Call), Move(u, Call)];
    ThreeMore(m, w, u);
    ContinuesMore(ms, m, more);
  }

  lemma ThreeMore(ms: seq<Move>, w: Tid, u: Tid)
    ensures Continues(ms, ms + [Move(w, PopCompleted), Move(w, Call), Move(u, Call)])
  {
  }

  // Nobody carries anything and two operations are accepted and not taken: thread 0 takes the first.
  lemma NoneCarriedReverses(ms: seq<Move>, s: State, ep: Ep, d: Dir)
    requires Reaches(ms, s) && Resting(s, None) && |s.pc| >= 2
    requires |Stamps(s.popped, ep, d)| + 2 <= |Stamps(s.submitted, ep, d)|
    ensures CanReverse(ms, |s.pc|, ep, d)
  {
    hide Reaches, Continues, Stamps, Enabled, NextState, CanReverse;
    var m, q := BringToFront(ms, s, 0, None, ep, d);
    MakesPopCompleted(q, 0);
    OneMore(m, q, 0, PopCompleted);
    var m1, q1 := m + [Move(0, PopCompleted)], NextState(q, 0, PopCompleted);
    CalledStep(q, 0, PopCompleted, ep, d);
    OneCarriedReverses(m1, q1, 1, 0, ep, d);
    ContinuesMore(ms, m, m1);
    CanReverseMore(ms, m1, |s.pc|, ep, d);
  }

  // Two threads carry operations already: the later one is called first.
  lemma TwoCarriedReverse(ms: seq<Move>, s: State, u: Tid, v: Tid, ep: Ep, d: Dir)
    requires Reaches(ms, s) && u < v < |s.pc| && CallsFor(s.pc[u], ep, d) && CallsFor(s.pc[v], ep, d)
    ensures CanReverse(ms, |s.pc|, ep, d)
  {
    hide Reaches, Continues, Stamps, InOrder, CallsOk, Enabled, NextState, DistinctIds, Ascending;
    ReachableCalls(ms, s);
    CalledFacts(s);
    var t := if s.pc[u].op.id < s.pc[v].op.id then v else u;
    MakesCall(s, t, s.pc[t].op);
    OneMore(ms, s, t, Call);
    var m, q := ms + [Move(t, Call)], NextState(s, t, Call);
    OrderFacts(ms, s, ep, d);
    OrderFacts(m, q, ep, d);
    IsOvertaken(s, t, u + v - t, ep, d);
    StepOrder(s, t, Call, ep, d);
  }

  lemma TwoReverse(ms: seq<Move>, s: State, ep: Ep, d: Dir)
    requires Reaches(ms, s) && |s.pc| >= 2 && Outstanding(s, ep, d, 2)
    ensures CanReverse(ms, |s.pc|, ep, d)
  {
    hide Reaches, Continues, Stamps, CanReverse, Carrying, CallsFor, Resting;
    CarryingFew(s.pc, ep, d);
    TakenIsCalledOrCarried(ms, s, ep, d);
    if u, v :| 0 <= u < v < |s.pc| && CallsFor(s.pc[u], ep, d) && CallsFor(s.pc[v], ep, d) {
      TwoCarriedReverse(ms, s, u, v, ep, d);
    } else {
      var f: Option<Tid> := None;
      if u :| 0 <= u < |s.pc| && CallsFor(s.pc[u], ep, d) {
        f := Some(u);
        CallsForCalls(s.pc[u], ep, d);
      }
      var m, q := CalmBut(ms, s, f);
      NobodyAccepts(q, f, ep, d);
      OutstandingBefore(ms, s, m, q, ep, d, 2);
      if f.Some? {
        var w := if f.value == 0 then 1 else 0;
        assert q.pc[w] == Idle by { RestingMeans(q, f, w); }
        OneCarriedReverses(m, q, w, f.value, ep, d);
      } else {
        NoneCarriedReverses(m, q, ep, d);
      }
      CanReverseMore(ms, m, |s.pc|, ep, d);
    }
  }

  lemma CallsForCalls(pc: Pc, ep: Ep, d: Dir)
    requires CallsFor(pc, ep, d)
    ensures pc.Calling?
  {
  }

  lemma RestingMeans(s: State, f: Option<Tid>, w: Tid)
    requires Resting(s, f) && w < |s.pc| && f != Some(w)
    ensures s.pc[w] == Idle
  {
  }

  lemma NobodyAccepts(s: State, f: Option<Tid>, ep: Ep, d: Dir)
    requires Resting(s, f)
    ensures Accepting(s.pc, ep, d) == 0
  {
    AcceptingNone(s.pc, ep, d);
  }

  // From a state with callbacks in order so far: they can come to be entered out of order before new work is
  // accepted if and only if there are two threads and two outstanding operations of the endpoint and direction,
  // wherever these are: about to be queued, queued, completed, or on their way to their callbacks.
  lemma ReversesIffOutstanding(ms: seq<Move>, s: State, ep: Ep, d: Dir)
    requires Reaches(ms, s) && InOrder(s, ep, d)
    ensures CanReverse(ms, |s.pc|, ep, d) <==> |s.pc| >= 2 && Outstanding(s, ep, d, 2)
  {
    hide Reaches, Continues, InOrder, Outstanding;
    if CanReverse(ms, |s.pc|, ep, d) {
      var ms', r :| Reaches(ms', r) && |r.pc| == |s.pc| && Continues(ms, ms') && !InOrder(r, ep, d);
      ReversedNeedsTwo(ms, s, ms', r, ep, d);
    }
    if |s.pc| >= 2 && Outstanding(s, ep, d, 2) {
      TwoReverse(ms, s, ep, d);
    }
  }

  // ----- With new work -----

  // Some longer run of n threads, with new work or without, enters callbacks out of order.
  ghost predicate MayReverse(ms: seq<Move>, n: nat, ep: Ep, d: Dir) {
    exists ms', r :: ms <= ms' && Reaches(ms', r) && |r.pc| == n && !InOrder(r, ep, d)
  }

  lemma {:induction false} LoneTaker(ms: seq<Move>, s: State)
    requires Reaches(ms, s) && |s.pc| < 2
    ensures OneTaker(ms, 0)
    decreases |ms|
  {
    hide NextState;
    if ms != [] {
      var init, last := ms[..|ms| - 1], ms[|ms| - 1];
      var r :| Reaches(init, r) && Enabled(r, last.t, last.a) && s == NextState(r, last.t, last.a);
      StepThread(r, last.t, last.a);
      LoneTaker(init, r);
      assert forall k :: 0 <= k < |init| ==> init[k] == ms[k];
    }
  }

  lemma QueuedAdds(s: State, x: Ep, iotype: IoType)
    requires x in s.ctx
    ensures |Stamps(Submitted(s, x, iotype).submitted, x, DirOf(iotype))|
      == |Stamps(s.submitted, x, DirOf(iotype))| + 1
  {
    hide Stamps;
    var o := NewOverlapped(|s.submitted|, iotype, x);
    StampsAppend(s.submitted, [o], x, DirOf(iotype));
    StampsOne(o, o, x, DirOf(iotype));
  }

  lemma Known(ms: seq<Move>, s: State, x: Ep) returns (ms': seq<Move>, r: State)
    requires Reaches(ms, s) && |s.pc| >= 1 && AllIdle(s)
    ensures Reaches(ms', r) && ms <= ms' && AllIdle(r) && |r.pc| == |s.pc| && x in r.ctx
  {
    hide Reaches, Enabled, NextState;
    if x in s.ctx {
      ms', r := ms, s;
    } else {
      MakesJoin(s, 0, x);
      ReachesMore(ms, s, 0, Join(x));
      ms', r := ms + [Move(0, Join(x))], NextState(s, 0, Join(x));
    }
  }

  // Two operations are queued one after the other.
  lemma SubmitsTwo(ms: seq<Move>, s: State, x: Ep, iotype: IoType) returns (ms': seq<Move>, r: State)
    requires Reaches(ms, s) && |s.pc| >= 1 && AllIdle(s) && x in s.ctx
    ensures Reaches(ms', r) && ms <= ms' && |r.pc| == |s.pc| && Outstanding(r, x, DirOf(iotype), 2)
  {
    hide Reaches, Stamps, Accepting, Carrying;
    var d := DirOf(iotype);
    IdleIsOpen(ms, s);
    Submits(ms, s, 0, x, iotype);
    var m, q := ms + SubmitRun(0, x, iotype, s.ctx[x].ready), Submitted(s, x, iotype);
    Submits(m, q, 0, x, iotype);
    ms', r := m + SubmitRun(0, x, iotype, true), Submitted(q, x, iotype);
    QueuedAdds(s, x, iotype);
    QueuedAdds(q, x, iotype);
    TakenIsCalledOrCarried(ms, s, x, d);
    PoppedInOrder(ms, s, x, d);
  }

  // With new work, two threads are all it takes, whatever was done so far.
  lemma ReversesIffTwoThreads(ms: seq<Move>, s: State, ep: Ep, d: Dir)
    requires Reaches(ms, s)
    ensures MayReverse(ms, |s.pc|, ep, d) <==> |s.pc| >= 2
  {
    hide Reaches, Continues, InOrder, OneTaker, Outstanding, AllIdle;
    if MayReverse(ms, |s.pc|, ep, d) {
      var ms', r :| ms <= ms' && Reaches(ms', r) && |r.pc| == |s.pc| && !InOrder(r, ep, d);
      if |s.pc| < 2 {
        LoneTaker(ms', r);
        OneWorkerInOrder(ms', r, 0, ep, d);
      }
    }
    if |s.pc| >= 2 {
      var m, q := Calm(ms, s);
      var m1, q1 := Known(m, q, ep);
      var m2, q2 := SubmitsTwo(m1, q1, ep, if d == Rd then Recv else Send);
      TwoReverse(m2, q2, ep, d);
      var ms', r :| Reaches(ms', r) && |r.pc| == |s.pc| && Continues(m2, ms') && !InOrder(r, ep, d);
      Prefixes(ms, m, m2, ms');
    }
  }

  lemma Prefixes(a: seq<Move>, b: seq<Move>, c: seq<Move>, e: seq<Move>)
    requires Continues(a, b) && b <= c && Continues(c, e)
    ensures a <= e
  {
  }
}
