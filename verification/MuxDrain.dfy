/** Nothing is lost for good: from every reachable state the work accepted so far can be brought to its callbacks. */
module MuxDrain {
  import opened Prelude
  import opened MuxModel
  import opened MuxMoves
  import opened MuxInvariant
  import opened MuxTheorems
  import opened MuxCallbacks
  import opened MuxRuns

  // ----- All threads can be brought between calls -----

  ghost predicate AllIdle(s: State) {
    forall u :: 0 <= u < |s.pc| ==> s.pc[u] == Idle
  }

  // All are between calls but f, which is on its way to a callback.
  ghost predicate Resting(s: State, f: Option<Tid>) {
    && (f.Some? ==> f.value < |s.pc| && s.pc[f.value].Calling?)
    && forall u :: 0 <= u < |s.pc| && f != Some(u) ==> s.pc[u] == Idle
  }

  // The same operations have been accepted and taken.
  ghost predicate SameWork(s: State, r: State) {
    r.popped == s.popped && r.submitted == s.submitted && |r.pc| == |s.pc|
  }

  lemma FinishWait(ms: seq<Move>, s: State, t: Tid, n: nat) returns (ms': seq<Move>, r: State)
    requires Reaches(ms, s) && Open(s) && t < |s.pc| && s.pc[t] == AtWait(n)
    ensures Reaches(ms', r) && Continues(ms, ms') && SameWork(s, r) && Open(r) && r.pc == s.pc[t := Idle]
  {
    hide Reaches, Continues;
    ms', r := StopWaiting(ms, s, t, n);
  }

  lemma FinishServing(ms: seq<Move>, s: State, t: Tid) returns (ms': seq<Move>, r: State)
    requires Reaches(ms, s) && Open(s) && t < |s.pc| && s.pc[t] == AtReadyList
    ensures Reaches(ms', r) && Continues(ms, ms') && SameWork(s, r) && Open(r) && r.pc == s.pc[t := Idle]
  {
    hide Reaches, Continues, Open;
    var m, q, n := PopAndServe(ms, s, t);
    ms', r := FinishWait(m, q, t, n);
    ContinuesMore(ms, m, ms');
  }

  // A thread outside critical sections can finish its call.
  lemma GoIdle(ms: seq<Move>, s: State, t: Tid) returns (ms': seq<Move>, r: State)
    requires Reaches(ms, s) && Open(s) && t < |s.pc|
    ensures Reaches(ms', r) && Continues(ms, ms') && SameWork(s, r) && Open(r) && r.pc == s.pc[t := Idle]
  {
    hide Reaches, Continues;
    ContinuesSelf(ms);
    match s.pc[t] {
      case Calling(o) =>
        var m, q := CallIt(ms, s, t, o);
        ms', r := FinishServing(m, q, t);
        ContinuesMore(ms, m, ms');
      case AtReadyList => ms', r := FinishServing(ms, s, t);
      case Holding(x, n) =>
        var m, q := Serve(ms, s, t, x, n);
        ms', r := FinishWait(m, q, t, n);
        ContinuesMore(ms, m, ms');
      case AtWait(n) => ms', r := FinishWait(ms, s, t, n);
      case Handling(events) => ms', r := HandleAll(ms, s, t, events);
      case _ => ms', r := ms, s;
    }
  }

  lemma {:induction false} IdleUpTo(ms: seq<Move>, s: State, n: nat, f: Option<Tid>)
    returns (ms': seq<Move>, r: State)
    requires Reaches(ms, s) && Open(s) && n <= |s.pc|
    ensures Reaches(ms', r) && Continues(ms, ms') && SameWork(s, r) && Open(r)
    ensures forall u :: 0 <= u < n && f != Some(u) ==> r.pc[u] == Idle
    ensures f.Some? && f.value < |s.pc| ==> r.pc[f.value] == s.pc[f.value]
  {
    hide Reaches, Continues, Open;
    if n == 0 {
      ContinuesSelf(ms);
      ms', r := ms, s;
    } else {
      ms', r := IdleUpTo(ms, s, n - 1, f);
      if f != Some(n - 1) {
        var m, q := ms', r;
        ms', r := GoIdle(m, q, n - 1);
        ContinuesMore(ms, m, ms');
      }
    }
  }

  // Everybody but f finishes the call it is in.
  lemma CalmBut(ms: seq<Move>, s: State, f: Option<Tid>) returns (ms': seq<Move>, r: State)
    requires Reaches(ms, s) && (f.Some? ==> f.value < |s.pc| && s.pc[f.value].Calling?)
    ensures Reaches(ms', r) && Continues(ms, ms') && Resting(r, f) && |r.pc| == |s.pc|
    ensures r.popped == s.popped && s.submitted <= r.submitted
    ensures f.Some? ==> r.pc[f.value] == s.pc[f.value]
  {
    hide Reaches, Continues;
    var m, q := ReleaseAll(ms, s, |s.pc|);
    NobodyLocks(m, q);
    ms', r := IdleUpTo(m, q, |q.pc|, f);
    ContinuesMore(ms, m, ms');
  }

  lemma Calm(ms: seq<Move>, s: State) returns (ms': seq<Move>, r: State)
    requires Reaches(ms, s)
    ensures Reaches(ms', r) && Continues(ms, ms') && AllIdle(r) && |r.pc| == |s.pc| && s.submitted <= r.submitted
  {
    hide Reaches, Continues;
    ms', r := CalmBut(ms, s, None);
  }

  lemma RestingIsOpen(ms: seq<Move>, s: State, f: Option<Tid>)
    requires Reaches(ms, s) && Resting(s, f)
    ensures Open(s)
  {
    hide Reaches;
    assert forall u :: 0 <= u < |s.pc| ==> LockedEp(s.pc[u]) == None;
    NobodyLocks(ms, s);
  }

  lemma IdleIsOpen(ms: seq<Move>, s: State)
    requires Reaches(ms, s) && AllIdle(s)
    ensures Open(s)
  {
    hide Reaches;
    NobodyLocks(ms, s);
  }

  // ----- A round of one thread, the others resting -----

  lemma Take(ms: seq<Move>, s: State, t: Tid) returns (ms': seq<Move>, r: State)
    requires Reaches(ms, s) && Open(s) && t < |s.pc| && s.pc[t] == Idle
    ensures Reaches(ms', r) && Continues(ms, ms') && r.pc == s.pc[t := AtReadyList] && Open(r)
    ensures r.submitted == s.submitted && r.readyList == s.readyList && r.ctx == s.ctx && r.armed == s.armed
    ensures if s.completion == [] then r.completion == [] && r.popped == s.popped
            else r.completion == s.completion[1..] && r.popped == s.popped + [s.completion[0]]
  {
    hide Reaches, Enabled, NextState, Continues;
    MakesPopCompleted(s, t);
    OneMore(ms, s, t, PopCompleted);
    ms', r := ms + [Move(t, PopCompleted)], NextState(s, t, PopCompleted);
    if s.completion != [] {
      var m, q := ms', r;
      ms', r := CallIt(m, q, t, s.completion[0]);
      ContinuesMore(ms, m, ms');
      assert r.pc == s.pc[t := AtReadyList];
    }
  }

  // One round of runOnce: the first completed operation is called, the first ready endpoint is served.
  lemma Round(ms: seq<Move>, s: State, w: Tid) returns (ms': seq<Move>, r: State)
    requires Reaches(ms, s) && Open(s) && w < |s.pc| && s.pc[w] == Idle
    ensures Reaches(ms', r) && Continues(ms, ms') && Open(r) && r.pc == s.pc
    ensures r.submitted == s.submitted && r.ctx.Keys == s.ctx.Keys
    ensures r.popped == s.popped + if s.completion == [] then [] else [s.completion[0]]
    ensures s.readyList != [] ==>
      r.readyList == s.readyList[1..] && r.ctx == s.ctx[s.readyList[0] := Ctx([], [], false, None)]
  {
    hide Reaches, Continues;
    var m1, s1 := Take(ms, s, w);
    var m2, s2, n := PopAndServe(m1, s1, w);
    ms', r := StopWaiting(m2, s2, w, n);
    ContinuesMore(ms, m1, m2);
    ContinuesMore(ms, m2, ms');
    assert r.pc == s.pc;
  }

  // An armed endpoint can be reported, which puts it on the ready list with its queues as they are.
  lemma EventRound(ms: seq<Move>, s: State, w: Tid, x: Ep, d: Dir) returns (ms': seq<Move>, r: State)
    requires Reaches(ms, s) && Open(s) && w < |s.pc| && s.pc[w] == Idle && s.readyList == [] && s.completion == []
    requires x in s.ctx && d in Armed(s, x)
    ensures Reaches(ms', r) && Continues(ms, ms') && r.pc == s.pc
    ensures r.submitted == s.submitted && r.popped == s.popped && r.completion == [] && r.readyList == [x]
    ensures r.ctx == s.ctx[x := s.ctx[x].(ready := true)]
  {
    hide Reaches, Continues, Enabled, NextState;
    var m1, s1 := Take(ms, s, w);
    var m2, s2, n := PopAndServe(m1, s1, w);
    var m3, s3 := ReportOne(m2, s2, w, x, d);
    ms', r := PostEvent(m3, s3, w, x, d);
    ContinuesMore(ms, m1, m2);
    ContinuesMore(ms, m2, m3);
    ContinuesMore(ms, m3, ms');
    assert r.pc == s.pc;
  }

  lemma ReportOne(ms: seq<Move>, s: State, w: Tid, x: Ep, d: Dir) returns (ms': seq<Move>, r: State)
    requires Reaches(ms, s) && w < |s.pc| && s.pc[w] == AtWait(0) && x in s.ctx && d in Armed(s, x)
    ensures Reaches(ms', r) && Continues(ms, ms')
    ensures r == s.(pc := s.pc[w := Handling([Event(x, false, {d})])], armed := r.armed)
  {
    hide Reaches, Continues, Enabled, NextState;
    var events := [Event(x, false, {d})];
    MakesWait(s, w, 0, events);
    OneMore(ms, s, w, Wait(events));
    ms', r := ms + [Move(w, Wait(events))], NextState(s, w, Wait(events));
  }

  lemma PostEvent(ms: seq<Move>, s: State, w: Tid, x: Ep, d: Dir) returns (ms': seq<Move>, r: State)
    requires Reaches(ms, s) && w < |s.pc| && s.pc[w] == Handling([Event(x, false, {d})]) && Free(s, x)
    ensures Reaches(ms', r) && Continues(ms, ms')
    ensures r == s.(pc := s.pc[w := Idle], readyList := s.readyList + [x],
                    ctx := s.ctx[x := s.ctx[x].(ready := true)])
  {
    hide Reaches, Continues, Enabled, NextState;
    var events := [Event(x, false, {d})];
    MakesHandle(s, w, events);
    OneMore(ms, s, w, Handle);
    var m1, s1 := ms + [Move(w, Handle)], NextState(s, w, Handle);
    assert events[1..] == [];
    MakesPost(s1, w, x, ToEvents([]));
    OneMore(m1, s1, w, Post);
    var m2, s2 := m1 + [Move(w, Post)], NextState(s1, w, Post);
    MakesRelease(s2, w, x, ToEvents([]));
    OneMore(m2, s2, w, Release);
    var m3, s3 := m2 + [Move(w, Release)], NextState(s2, w, Release);
    MakesHandleDone(s3, w);
    OneMore(m3, s3, w, HandleDone);
    ms', r := m3 + [Move(w, HandleDone)], NextState(s3, w, HandleDone);
    ContinuesMore(ms, m1, m2);
    ContinuesMore(ms, m2, m3);
    ContinuesMore(ms, m3, ms');
    assert s3.ctx[x] == s.ctx[x].(ready := true);
    assert r.ctx == s.ctx[x := s.ctx[x].(ready := true)];
    assert r.pc == s.pc[w := Idle];
  }

  // ----- Draining -----

  // The numbers below n.
  ghost function Below(n: nat): set<nat> {
    if n == 0 then {} else Below(n - 1) + {n - 1}
  }

  lemma {:induction false} BelowSize(n: nat)
    ensures |Below(n)| == n && forall i: nat :: i in Below(n) <==> i < n
  {
    if n > 0 {
      BelowSize(n - 1);
    }
  }

  ghost function Ids(s: seq<Overlapped>): set<nat> {
    set o | o in s :: o.id
  }

  lemma {:induction false} IdCount(s: seq<Overlapped>)
    requires DistinctIds(s)
    ensures |Ids(s)| == |s|
  {
    if s == [] {
      assert Ids(s) == {};
    } else {
      var n := |s| - 1;
      IdCount(s[..n]);
      assert s[n].id !in Ids(s[..n]);
      assert s == s[..n] + [s[n]];
      assert Ids(s) == Ids(s[..n]) + {s[n].id};
    }
  }

  // No more is taken than was submitted.
  lemma TakenAtMostSubmitted(ms: seq<Move>, s: State)
    requires Reaches(ms, s)
    ensures |s.popped| <= |s.submitted|
  {
    hide Reaches, CallsOk, DistinctIds;
    ReachableCalls(ms, s);
    IdCount(s.popped);
    var all := Below(|s.submitted|);
    BelowSize(|s.submitted|);
    forall o | o in s.popped ensures o.id in all {
      var i :| 0 <= i < |s.popped| && s.popped[i] == o;
      PoppedWasSubmitted(ms, s, i);
    }
    SubsetSize(Ids(s.popped), all);
  }

  lemma {:induction false} SubsetSize<T>(a: set<T>, b: set<T>)
    requires a <= b
    ensures |a| <= |b|
  {
    if x :| x in a {
      SubsetSize(a - {x}, b - {x});
    }
  }

  ghost predicate Drained(s: State) {
    s.completion == [] && forall x :: x in s.ctx ==> s.ctx[x].rd == [] && s.ctx[x].wr == []
  }

  // Serving an endpoint with something queued puts something on the completion list.
  lemma ServedIsCompleted(ms: seq<Move>, s: State, ms': seq<Move>, r: State, x: Ep, d: Dir)
    requires Reaches(ms, s) && Reaches(ms', r) && Free(s, x) && Free(r, x)
    requires s.completion == [] && QueueOf(s.ctx[x], d) != [] && QueueOf(r.ctx[x], d) == []
    requires r.submitted == s.submitted && r.popped == s.popped
    ensures r.completion != []
  {
    hide Reaches, Stamps;
    OperationsConserved(ms, s, x, d);
    OperationsConserved(ms', r, x, d);
    HolderInv(ms, s);
    assert QueueOk(s.ctx[x], x);
    StampListed(QueueOf(s.ctx[x], d), x, d, 0);
    NoStamps(x, d);
  }

  lemma NoStamps(x: Ep, d: Dir)
    ensures Stamps([], x, d) == []
  {
  }

  // How far an idle state is from having something to call.
  function Distance(s: State): nat {
    if s.completion != [] then 0 else 1 + |s.readyList|
  }

  // With everybody but f idle, one or two rounds of w call the first completed operation, or shorten the ready list.
  lemma DrainStep(ms: seq<Move>, s: State, w: Tid, f: Option<Tid>) returns (ms': seq<Move>, r: State)
    requires Reaches(ms, s) && Resting(s, f) && w < |s.pc| && s.pc[w] == Idle && !Drained(s)
    ensures Reaches(ms', r) && Continues(ms, ms') && r.pc == s.pc && r.submitted == s.submitted
    ensures r.popped == s.popped + if s.completion == [] then [] else [s.completion[0]]
    ensures s.completion == [] ==> Distance(r) < Distance(s)
  {
    hide Reaches, Continues;
    RestingIsOpen(ms, s, f);
    if s.completion != [] || s.readyList != [] {
      ms', r := Round(ms, s, w);
    } else {
      var x :| x in s.ctx && (s.ctx[x].rd != [] || s.ctx[x].wr != []);
      var d := if s.ctx[x].rd != [] then Rd else Wr;
      OnlyArmedIsLeft(ms, s, f, x, d);
      var m, q := EventRound(ms, s, w, x, d);
      RestingIsOpen(m, q, f);
      ms', r := Round(m, q, w);
      ServedIsCompleted(m, q, ms', r, x, d);
      ContinuesMore(ms, m, ms');
    }
  }

  lemma OnlyArmedIsLeft(ms: seq<Move>, s: State, f: Option<Tid>, x: Ep, d: Dir)
    requires Reaches(ms, s) && Resting(s, f) && s.readyList == [] && Free(s, x) && QueueOf(s.ctx[x], d) != []
    ensures d in Armed(s, x)
  {
    hide Reaches;
    forall t | 0 <= t < |s.pc| ensures !HasEvent(EventsOf(s.pc[t]), x) {
      assert EventsOf(s.pc[t]) == [];
    }
    NothingStranded(ms, s, x, d);
  }

  lemma {:induction false} Drain(ms: seq<Move>, s: State) returns (ms': seq<Move>, r: State)
    requires Reaches(ms, s) && AllIdle(s) && |s.pc| >= 1
    ensures Reaches(ms', r) && Continues(ms, ms') && AllIdle(r) && Drained(r) && r.submitted == s.submitted
    decreases if |s.popped| <= |s.submitted| then |s.submitted| - |s.popped| else 0, Distance(s)
  {
    hide Reaches, Continues, Drained;
    if Drained(s) {
      ContinuesSelf(ms);
      ms', r := ms, s;
    } else {
      var m, q := DrainStep(ms, s, 0, None);
      TakenAtMostSubmitted(m, q);
      ms', r := Drain(m, q);
      ContinuesMore(ms, m, ms');
    }
  }

  // Each submitted operation has had its callback.
  ghost predicate AllCalled(s: State) {
    forall i :: 0 <= i < |s.submitted| ==> IsCalled(s, s.submitted[i])
  }

  ghost predicate IsCalled(s: State, x: Overlapped) {
    exists o :: o in s.called && SameOperation(x, o)
  }

  lemma DrainedIsCalled(ms: seq<Move>, s: State)
    requires Reaches(ms, s) && AllIdle(s) && Drained(s)
    ensures AllCalled(s)
  {
    hide Reaches, Stamps;
    QuietMeansCalled(ms, s);
    ReachableInv(ms, s);
    forall i | 0 <= i < |s.submitted| ensures IsCalled(s, s.submitted[i]) {
      var x, d := s.submitted[i].ep, DirOf(s.submitted[i].iotype);
      assert Accounted(s, x, d);
      NoStamps(x, d);
      assert Pending(s, x, d) == [];
      StampListed(s.submitted, x, d, i);
      StampWitness(s.popped, x, d, StampOf(s.submitted[i]));
      var o :| o in s.popped && Belongs(o, x, d) && StampOf(o) == StampOf(s.submitted[i]);
      assert o in multiset(s.popped);
      assert o in s.called && SameOperation(s.submitted[i], o);
    }
  }

  // From every reachable state with a thread in it, some continuation without new work brings every accepted
  // operation to its callback.
  lemma NothingLostForGood(ms: seq<Move>, s: State)
    requires Reaches(ms, s) && |s.pc| >= 1
    ensures exists ms', r ::
      Reaches(ms', r) && Continues(ms, ms') && s.submitted <= r.submitted && AllIdle(r) && AllCalled(r)
  {
    hide Reaches, Continues, AllIdle, AllCalled, Drained;
    var m, q := Calm(ms, s);
    var ms', r := Drain(m, q);
    ContinuesMore(ms, m, ms');
    DrainedIsCalled(ms', r);
  }
}
