/**
 When exactly the debug assertions on the ready flag hold: of every run, what the assertions come down to, and of
 every state in which no endpoint is due twice, whether they can fail before new work is accepted.
 */
module MuxAssertions {
  import opened Prelude
  import opened MuxModel
  import opened MuxMoves
  import opened MuxInvariant
  import opened MuxTheorems
  import opened MuxRuns
  import opened MuxDrain
  import opened MuxReady

  // ----- Of every run -----

  // The flag of x is set exactly if there is an entry for it, and there is no second one.
  ghost predicate FlagExact(s: State, x: Ep) {
    Entries(s, x) <= 1 && (Flag(s, x) <==> Entries(s, x) == 1)
  }

  ghost predicate AllExact(s: State) {
    forall x :: FlagExact(s, x)
  }

  // The move handles an event of an endpoint that has an entry: listed, popped, or about to be pushed.
  ghost predicate HandlesListed(s: State, t: Tid, a: Action) {
    Enabled(s, t, a) && a.Handle? && Entries(s, s.pc[t].events[0].ep) > 0
  }

  lemma ExactStep(s: State, t: Tid, a: Action, x: Ep)
    requires Enabled(s, t, a) && FlagExact(s, x) && !HandlesListed(s, t, a)
    ensures FlagExact(NextState(s, t, a), x)
  {
    hide Enabled, NextState, Entries;
    EntriesStep(s, t, a, x);
    FlagStep(s, t, a, x);
    InHand(s, t, a, x);
  }

  // While flags are exact, an assertion fails in a move exactly if the move handles a listed endpoint; the service
  // of an entry never finds its flag clear.
  lemma ExactAsserts(s: State, t: Tid, a: Action)
    requires AllExact(s)
    ensures Violates(s, t, a) <==> HandlesListed(s, t, a)
    ensures a.Acquire? ==> !Violates(s, t, a)
  {
    hide NextState, Entries;
    if Enabled(s, t, a) && (a.Acquire? || a.Handle?) {
      var x := if a.Acquire? then s.pc[t].ep else s.pc[t].events[0].ep;
      assert FlagExact(s, x);
      InHand(s, t, a, x);
      if a.Handle? {
        HandledIsKnown(s, t, a);
      }
    }
  }

  lemma HandledIsKnown(s: State, t: Tid, a: Action)
    requires Enabled(s, t, a) && a.Handle?
    ensures s.pc[t].Handling? && s.pc[t].events != [] && s.pc[t].events[0].ep in s.ctx
  {
  }

  // A run in which no assertion fails.
  ghost predicate Asserts(ms: seq<Move>, s: State)
    decreases |ms|
  {
    if ms == [] then Initial(s)
    else
      var last := ms[|ms| - 1];
      exists r :: Asserts(ms[..|ms| - 1], r)
        && Enabled(r, last.t, last.a) && s == NextState(r, last.t, last.a) && !Violates(r, last.t, last.a)
  }

  // A run in which no event is handled of an endpoint that has an entry.
  ghost predicate Unlisted(ms: seq<Move>, s: State)
    decreases |ms|
  {
    if ms == [] then Initial(s)
    else
      var last := ms[|ms| - 1];
      exists r :: Unlisted(ms[..|ms| - 1], r)
        && Enabled(r, last.t, last.a) && s == NextState(r, last.t, last.a) && !HandlesListed(r, last.t, last.a)
  }

  lemma InitiallyExact(s: State)
    requires Initial(s)
    ensures AllExact(s)
  {
    hide Entries, Signals;
    forall x ensures FlagExact(s, x) {
      InitiallyDue(s, x);
    }
  }

  lemma {:induction false} UnlistedFacts(ms: seq<Move>, s: State)
    requires Unlisted(ms, s)
    ensures Asserts(ms, s) && AllExact(s)
    decreases |ms|
  {
    hide NextState, Enabled, Violates, HandlesListed, FlagExact;
    if ms == [] {
      InitiallyExact(s);
    } else {
      var init, last := ms[..|ms| - 1], ms[|ms| - 1];
      var r :| Unlisted(init, r) && Enabled(r, last.t, last.a) && s == NextState(r, last.t, last.a)
        && !HandlesListed(r, last.t, last.a);
      UnlistedFacts(init, r);
      ExactAsserts(r, last.t, last.a);
      forall x ensures FlagExact(s, x) {
        ExactStep(r, last.t, last.a, x);
      }
      assert Asserts(init, r);
    }
  }

  lemma {:induction false} AssertsFacts(ms: seq<Move>, s: State)
    requires Asserts(ms, s)
    ensures Unlisted(ms, s)
    decreases |ms|
  {
    hide NextState, Enabled, Violates, HandlesListed, AllExact;
    if ms != [] {
      var init, last := ms[..|ms| - 1], ms[|ms| - 1];
      var r :| Asserts(init, r) && Enabled(r, last.t, last.a) && s == NextState(r, last.t, last.a)
        && !Violates(r, last.t, last.a);
      AssertsFacts(init, r);
      UnlistedFacts(init, r);
      ExactAsserts(r, last.t, last.a);
      assert Unlisted(init, r);
    }
  }

  // For every run: no assertion on the flag fails in it if and only if no event is handled of an endpoint that is
  // on the ready list, popped or about to be pushed. Up to the first such event the flag says exactly whether there
  // is such an entry, there is never a second one, and no service finds the flag clear.
  lemma AssertsIffUnlisted(ms: seq<Move>, s: State)
    ensures Asserts(ms, s) <==> Unlisted(ms, s)
    ensures Unlisted(ms, s) ==> AllExact(s) && forall t, a: Action :: a.Acquire? ==> !Violates(s, t, a)
  {
    hide Asserts, Unlisted, AllExact, Violates;
    if Asserts(ms, s) {
      AssertsFacts(ms, s);
    }
    if Unlisted(ms, s) {
      UnlistedFacts(ms, s);
      forall t, a: Action | a.Acquire? ensures !Violates(s, t, a) {
        ExactAsserts(s, t, a);
      }
    }
  }

  // ----- Before new work is accepted: work in acceptance -----

  // Thread t is queueing work on an endpoint that is covered.
  ghost predicate Crowds(s: State, t: Tid) {
    t < |s.pc| && Submitting(s.pc[t]) && Covered(s, LockedEp(s.pc[t]).value)
  }

  predicate Submitting(pc: Pc) {
    pc.Appending? || pc.Checking?
  }

  // Only an accepted call starts queueing, and the endpoint stays locked.
  lemma SubmittingStep(s: State, t: Tid, a: Action)
    requires Enabled(s, t, a) && !a.Submit?
    ensures var r := NextState(s, t, a);
      t < |r.pc| && (Submitting(r.pc[t]) ==>
        Submitting(s.pc[t]) && LockedEp(r.pc[t]) == LockedEp(s.pc[t]) && !a.Rearm? && !a.Handle?)
  {
    hide PerformResult, Reportable, Disarm, Nonempty, Report;
  }

  lemma RearmLocks(s: State, t: Tid, a: Action)
    requires Enabled(s, t, a) && a.Rearm?
    ensures LockedEp(s.pc[t]) == Some(s.pc[t].ep)
  {
  }

  lemma CrowdsStep(s: State, t: Tid, a: Action, u: Tid)
    requires LocksOk(s) && Enabled(s, t, a) && !a.Submit? && Crowds(NextState(s, t, a), u)
    ensures Crowds(s, u)
  {
    hide Enabled, NextState, Covered, Signals, Focus;
    var r := NextState(s, t, a);
    var x := LockedEp(r.pc[u]).value;
    StepMoves(s, t, a);
    SubmittingStep(s, t, a);
    CoveredCounts(r, x);
    CoveredCounts(s, x);
    SignalsStep(s, t, a, x);
    if a.Rearm? {
      RearmLocks(s, t, a);
    }
  }

  ghost predicate Crowded(s: State) {
    exists t :: Crowds(s, t)
  }

  // No new work is accepted on the way, so whoever queues at the end did at the start.
  lemma {:induction false} CrowdedBefore(ms: seq<Move>, s: State, ms': seq<Move>, r: State)
    requires Reaches(ms, s) && Reaches(ms', r) && |r.pc| == |s.pc| && Continues(ms, ms') && Crowded(r)
    ensures Crowded(s)
    decreases |ms'|
  {
    hide Enabled, NextState, Crowds;
    if ms == ms' {
      RunDetermines(ms, r, s);
    } else {
      var init, last := ms'[..|ms'| - 1], ms'[|ms'| - 1];
      var q :| Reaches(init, q) && Enabled(q, last.t, last.a) && r == NextState(q, last.t, last.a);
      StepThread(q, last.t, last.a);
      HolderInv(init, q);
      var u :| Crowds(r, u);
      CrowdsStep(q, last.t, last.a, u);
      CrowdedBefore(ms, s, init, q);
    }
  }

  lemma UncleanCrowds(s: State, t: Tid, a: Action)
    requires Unclean(s, t, a)
    ensures Crowded(s)
  {
    assert Crowds(s, t);
  }

  lemma {:induction false} StaysDue(ms: seq<Move>, s: State, ms': seq<Move>, r: State)
    requires Reaches(ms, s) && AllDueOnce(s) && !Crowded(s)
    requires Reaches(ms', r) && |r.pc| == |s.pc| && Continues(ms, ms')
    ensures AllDueOnce(r)
    decreases |ms'|
  {
    hide Enabled, NextState, Crowded, DueOnce, Unclean;
    if ms == ms' {
      RunDetermines(ms, r, s);
    } else {
      var init, last := ms'[..|ms'| - 1], ms'[|ms'| - 1];
      var q :| Reaches(init, q) && Enabled(q, last.t, last.a) && r == NextState(q, last.t, last.a);
      StepThread(q, last.t, last.a);
      StaysDue(ms, s, init, q);
      if Crowded(q) {
        CrowdedBefore(ms, s, init, q);
      }
      if Unclean(q, last.t, last.a) {
        UncleanCrowds(q, last.t, last.a);
      }
      HolderInv(init, q);
      forall x ensures DueOnce(r, x) {
        DueStep(q, last.t, last.a, x);
      }
    }
  }

  // ----- A thread alone -----

  // The one thread queues work on x, or serves it for that, with nothing else on the ready list.
  predicate Serving(s: State, x: Ep) {
    && |s.pc| == 1 && x in s.ctx
    && match s.pc[0]
       case Appending(op) => op.ep == x && s.readyList == [] && !s.ctx[x].ready
       case Checking(ep) => ep == x && s.readyList == [] && !s.ctx[x].ready
       case Posting(ep, next) => ep == x && next == ToIdle && s.readyList == [] && s.ctx[x].ready
       case Leaving(ep, next) => ep == x && next == ToIdle && s.readyList == [x] && s.ctx[x].ready
       case Idle => s.readyList == [x] && s.ctx[x].ready
       case Calling(_) => s.readyList == [x] && s.ctx[x].ready
       case AtReadyList => s.readyList == [x] && s.ctx[x].ready
       case Holding(ep, _) => ep == x && s.readyList == [] && s.ctx[x].ready
       case Reading(ep, _) => ep == x && s.readyList == [] && !s.ctx[x].ready
       case ReadPosted(ep, _) => ep == x && s.readyList == [] && !s.ctx[x].ready
       case Writing(ep, _) => ep == x && s.readyList == [] && !s.ctx[x].ready
       case WritePosted(ep, _) => ep == x && s.readyList == [] && !s.ctx[x].ready
       case Rearming(ep, _) => ep == x && s.readyList == [] && !s.ctx[x].ready
       case _ => false
  }

  // Serving ends with the rearming.
  predicate Served(s: State, x: Ep) {
    && |s.pc| == 1 && x in s.ctx && s.pc[0].Leaving? && s.pc[0].next.ToWait? && s.pc[0].ep == x
    && s.readyList == [] && !s.ctx[x].ready
  }

  lemma ServingReads(s: State, t: Tid, a: Action, x: Ep)
    requires Serving(s, x) && Enabled(s, t, a) && ServesQueue(a)
    ensures Serving(NextState(s, t, a), x)
  {
    hide PerformResult;
  }

  lemma ServingMoves(s: State, t: Tid, a: Action, x: Ep)
    requires Serving(s, x) && Enabled(s, t, a) && !a.Submit? && !a.Join? && !ServesQueue(a)
    ensures Serving(NextState(s, t, a), x) || (a.Rearm? && Served(NextState(s, t, a), x))
  {
    hide PerformResult, Reportable, Disarm, Nonempty, Report;
  }

  lemma ServingAsserts(s: State, t: Tid, a: Action, x: Ep)
    requires Serving(s, x)
    ensures !Violates(s, t, a)
  {
    hide NextState, Reportable, PerformResult;
  }

  lemma ServedIsDue(s: State, x: Ep)
    requires Served(s, x) && OwnerPc(s, x) == s.pc[0]
    ensures DueOnce(s, x)
  {
    OneThread(s, x);
  }

  // With one thread, the counts are what it has in hand.
  lemma OneThread(s: State, x: Ep)
    requires |s.pc| == 1
    ensures Entries(s, x) == multiset(s.readyList)[x] + Claim(s.pc[0], x)
    ensures EventsOf(s.pc[0]) == [] ==> Signals(s, x) == ArmedOne(s, x)
  {
    assert s.pc[1..] == [];
    assert ClaimSum(s.pc[1..], x) == 0 && EventSum(s.pc[1..], x) == 0;
  }

  // All other endpoints are due once, and x is or is being taken care of.
  ghost predicate Settling(s: State, x: Ep) {
    && |s.pc| == 1 && (forall y :: y != x ==> DueOnce(s, y))
    && (Serving(s, x) || (DueOnce(s, x) && !Submitting(s.pc[0])))
  }

  lemma CheckedIsServed(s: State, t: Tid, a: Action, x: Ep)
    requires Settling(s, x) && Enabled(s, t, a) && Unclean(s, t, a)
    ensures Serving(s, x) && s.pc[t].ep == x
  {
    hide DueOnce, Covered;
  }

  lemma SettlingStep(s: State, t: Tid, a: Action, x: Ep)
    requires LocksOk(s) && Settling(s, x) && Enabled(s, t, a) && !a.Submit? && !a.Join?
    ensures Settling(NextState(s, t, a), x)
  {
    hide LocksOk, Enabled, NextState, DueOnce, Unclean, Serving, Served, Focus;
    var r := NextState(s, t, a);
    StepThread(s, t, a);
    SubmittingStep(s, t, a);
    if Unclean(s, t, a) {
      CheckedIsServed(s, t, a, x);
    }
    forall y | y != x ensures DueOnce(r, y) {
      DueStep(s, t, a, y);
    }
    if !Serving(s, x) {
      DueStep(s, t, a, x);
    } else if ServesQueue(a) {
      ServingReads(s, t, a, x);
    } else {
      ServingMoves(s, t, a, x);
      if !Serving(r, x) {
        LocksStep(s, t, a);
        ServedOwner(r, x);
        ServedIsDue(r, x);
      }
    }
  }

  lemma ServedOwner(s: State, x: Ep)
    requires LocksOk(s) && Served(s, x)
    ensures OwnerPc(s, x) == s.pc[0] && !Submitting(s.pc[0])
  {
  }

  lemma {:induction false} StaysSettling(ms: seq<Move>, s: State, ms': seq<Move>, r: State, x: Ep)
    requires Reaches(ms, s) && Settling(s, x)
    requires Reaches(ms', r) && |r.pc| == |s.pc| && Continues(ms, ms')
    ensures Settling(r, x)
    decreases |ms'|
  {
    hide Enabled, NextState, Settling;
    if ms == ms' {
      RunDetermines(ms, r, s);
    } else {
      var init, last := ms'[..|ms'| - 1], ms'[|ms'| - 1];
      var q :| Reaches(init, q) && Enabled(q, last.t, last.a) && r == NextState(q, last.t, last.a);
      StepThread(q, last.t, last.a);
      StaysSettling(ms, s, init, q, x);
      HolderInv(init, q);
      SettlingStep(q, last.t, last.a, x);
    }
  }

  lemma SettlingAsserts(s: State, t: Tid, a: Action, x: Ep)
    requires Settling(s, x)
    ensures !Violates(s, t, a)
  {
    hide DueOnce, Serving, Violates, Submitting;
    if Serving(s, x) {
      ServingAsserts(s, t, a, x);
    } else if Violates(s, t, a) {
      ViolatesMoves(s, t, a);
      assert AllDueOnce(s);
      DueAsserts(s, t, a);
    }
  }

  lemma ViolatesMoves(s: State, t: Tid, a: Action)
    requires Violates(s, t, a)
    ensures Enabled(s, t, a)
  {
  }

  lemma CrowdedAlone(s: State, x: Ep)
    requires AllDueOnce(s) && |s.pc| == 1 && s.readyList == [] && x in s.ctx
    requires Crowds(s, 0) && LockedEp(s.pc[0]) == Some(x)
    ensures Settling(s, x)
  {
    hide DueOnce, Covered;
    CoveredCounts(s, x);
    OneThread(s, x);
    assert DueOnce(s, x);
    DueMeans(s, x);
  }

  lemma DueMeans(s: State, x: Ep)
    requires DueOnce(s, x)
    ensures Entries(s, x) + Signals(s, x) <= 1 && (x in s.ctx && s.ctx[x].ready <==> Entries(s, x) == 1)
  {
  }

  // Thread 0 is between calls, and so is everybody else.
  ghost predicate Between(s: State, x: Ep) {
    |s.pc| >= 1 && AllIdle(s) && Open(s) && x in s.ctx
  }

  // The next entry is served, and the thread waits.
  lemma Passes(ms: seq<Move>, s: State, x: Ep) returns (ms': seq<Move>, r: State)
    requires Reaches(ms, s) && Between(s, x) && s.readyList != [] && s.readyList[0] != x
    ensures Reaches(ms', r) && Continues(ms, ms') && Open(r) && r.pc == s.pc[0 := AtWait(|s.readyList| - 1)]
    ensures r.readyList == s.readyList[1..] && r.armed == s.armed && x in r.ctx && r.ctx[x] == s.ctx[x]
  {
    hide Reaches, Continues;
    var m, q := Take(ms, s, 0);
    var n;
    ms', r, n := PopAndServe(m, q, 0);
    ContinuesMore(ms, m, ms');
  }

  // The next entry is served, and the thread goes idle.
  lemma PassesBy(ms: seq<Move>, s: State, x: Ep) returns (ms': seq<Move>, r: State)
    requires Reaches(ms, s) && Between(s, x) && s.readyList != [] && s.readyList[0] != x
    ensures Reaches(ms', r) && Continues(ms, ms') && Between(r, x) && |r.pc| == |s.pc|
    ensures r.readyList == s.readyList[1..] && r.armed == s.armed && r.ctx[x] == s.ctx[x]
  {
    hide Reaches, Continues;
    var m, q := Passes(ms, s, x);
    ms', r := StopWaiting(m, q, 0, |s.readyList| - 1);
    ContinuesMore(ms, m, ms');
    assert r.pc == s.pc;
  }

  // x is armed and the last of several entries: the thread waits before x has its turn.
  lemma {:induction false} BehindFails(ms: seq<Move>, s: State, x: Ep, front: seq<Ep>)
    requires Reaches(ms, s) && Between(s, x) && s.ctx[x].ready && Armed(s, x) != {}
    requires s.readyList == front + [x] && front != [] && x !in front
    ensures CanViolate(ms, |s.pc|)
    decreases |front|
  {
    hide Reaches, Continues, CanViolate, AllIdle, Open;
    assert s.readyList[0] == front[0];
    if |front| < MAX_READY_LIST_LEN {
      var m, q := Passes(ms, s, x);
      WaitFires(m, q, 0, x);
      CanViolateMore(ms, m, |s.pc|);
    } else {
      var m, q := PassesBy(ms, s, x);
      assert q.readyList == front[1..] + [x];
      BehindFails(m, q, x, front[1..]);
      CanViolateMore(ms, m, |s.pc|);
    }
  }

  // A lone thread that queues work on a covered endpoint, with other entries on the ready list.
  lemma CrowdedBehind(ms: seq<Move>, s: State, x: Ep)
    requires Reaches(ms, s) && AllDueOnce(s) && |s.pc| == 1 && s.readyList != []
    requires Crowds(s, 0) && LockedEp(s.pc[0]) == Some(x)
    ensures CanViolate(ms, 1)
  {
    hide Reaches, Continues, CanViolate, Framed, Finished, DueOnce, Covered;
    HolderInv(ms, s);
    CrowdedFacts(s, x);
    var m1, s1 := Queued(ms, s, 0, x);
    Announces(m1, s1, 0, x);
    var m2 := m1 + AnnounceRun(0, false);
    var s2 := s1.(pc := s1.pc[0 := Idle], ctx := s1.ctx[x := s1.ctx[x].(ready := true, owner := None)],
                  readyList := s1.readyList + [x]);
    AnnouncesNothingNew(m1, 0, false);
    ContinuesMore(ms, m1, m2);
    IdleIsOpen(m2, s2);
    BehindFails(m2, s2, x, s.readyList);
    CanViolateMore(ms, m2, 1);
  }

  lemma AnnouncesNothingNew(ms: seq<Move>, t: Tid, ready: bool)
    ensures Continues(ms, ms + AnnounceRun(t, ready))
  {
  }

  lemma CrowdedFacts(s: State, x: Ep)
    requires AllDueOnce(s) && |s.pc| == 1 && Crowds(s, 0) && LockedEp(s.pc[0]) == Some(x) && LocksOk(s)
    ensures x in s.ctx && !s.ctx[x].ready && x !in s.readyList && Armed(s, x) != {}
  {
    hide DueOnce, Covered;
    CoveredCounts(s, x);
    OneThread(s, x);
    assert DueOnce(s, x);
    DueMeans(s, x);
  }

  // The operation is on its queue; the flag is still to be looked at.
  lemma Queued(ms: seq<Move>, s: State, t: Tid, x: Ep) returns (ms': seq<Move>, r: State)
    requires Reaches(ms, s) && t < |s.pc| && Submitting(s.pc[t]) && LockedEp(s.pc[t]) == Some(x) && x in s.ctx
    ensures Reaches(ms', r) && Continues(ms, ms') && r.pc == s.pc[t := Checking(x)]
    ensures x in r.ctx && r.ctx[x].ready == s.ctx[x].ready && r.readyList == s.readyList && r.armed == s.armed
  {
    hide Reaches, Continues, Enabled, NextState;
    if s.pc[t].Checking? {
      ContinuesSelf(ms);
      ms', r := ms, s;
    } else {
      MakesAppend(s, t, s.pc[t].op);
      OneMore(ms, s, t, Append);
      ms', r := ms + [Move(t, Append)], NextState(s, t, Append);
    }
  }

  // Two or more threads, one of which queues work on a covered endpoint.
  lemma CrowdedFails(ms: seq<Move>, s: State, t: Tid)
    requires Reaches(ms, s) && Crowds(s, t) && |s.pc| >= 2
    ensures CanViolate(ms, |s.pc|)
  {
    hide Reaches, Continues, CanViolate, Covered, Enabled;
    HolderInv(ms, s);
    var x := LockedEp(s.pc[t]).value;
    CrowdedEp(s, t);
    var m, q := Queued(ms, s, t, x);
    StillCovered(s, q, t, x);
    UncleanViolates(m, q, t);
    OneMore(m, q, t, Check);
    var more := m + [Move(t, Check)];
    ContinuesMore(ms, m, more);
    CanViolateMore(ms, more, |s.pc|);
  }

  lemma CrowdedEp(s: State, t: Tid)
    requires LocksOk(s) && Crowds(s, t)
    ensures LockedEp(s.pc[t]).Some? && LockedEp(s.pc[t]).value in s.ctx
  {
  }

  lemma StillCovered(s: State, r: State, t: Tid, x: Ep)
    requires Crowds(s, t) && LockedEp(s.pc[t]) == Some(x) && r.pc == s.pc[t := Checking(x)] && r.armed == s.armed
    ensures Unclean(r, t, Check)
  {
    assert EventsOf(s.pc[t]) == [];
    if Armed(s, x) == {} {
      var u :| 0 <= u < |s.pc| && HasEvent(EventsOf(s.pc[u]), x);
      NoEvents(x);
      assert HasEvent(EventsOf(r.pc[u]), x);
    }
  }

  // As long as every endpoint is due once, with any number of threads: an assertion on the flag can fail before new
  // work is accepted if and only if some thread is queueing work on a covered endpoint, and there is a second thread
  // or an entry on the ready list before it.
  lemma FailsIffCrowded(ms: seq<Move>, s: State)
    requires Reaches(ms, s) && AllDueOnce(s)
    ensures CanViolate(ms, |s.pc|) <==> Crowded(s) && (|s.pc| >= 2 || s.readyList != [])
  {
    hide Reaches, Continues, Violates, Crowds, DueOnce, LocksOk;
    HolderInv(ms, s);
    if CanViolate(ms, |s.pc|) {
      var ms', r, u, a :| Reaches(ms', r) && |r.pc| == |s.pc| && Continues(ms, ms') && Violates(r, u, a);
      if !Crowded(s) {
        StaysDue(ms, s, ms', r);
        ViolatesMoves(r, u, a);
        DueAsserts(r, u, a);
      } else if |s.pc| < 2 && s.readyList == [] {
        var t :| Crowds(s, t);
        LoneCrowd(s, t);
        CrowdedEp(s, t);
        var x := LockedEp(s.pc[0]).value;
        CrowdedAlone(s, x);
        StaysSettling(ms, s, ms', r, x);
        SettlingAsserts(r, u, a, x);
      }
    }
    if Crowded(s) && (|s.pc| >= 2 || s.readyList != []) {
      var t :| Crowds(s, t);
      if |s.pc| >= 2 {
        CrowdedFails(ms, s, t);
      } else {
        LoneCrowd(s, t);
        CrowdedEp(s, t);
        CrowdedBehind(ms, s, LockedEp(s.pc[0]).value);
      }
    }
  }

  lemma LoneCrowd(s: State, t: Tid)
    requires Crowds(s, t) && |s.pc| < 2
    ensures t == 0 && |s.pc| == 1
  {
  }

  // ----- With new work -----

  // Some longer run of n threads, with new work or without, comes to a failing assertion.
  ghost predicate MayFail(ms: seq<Move>, n: nat) {
    exists ms', r, t, a :: ms <= ms' && Reaches(ms', r) && |r.pc| == n && Violates(r, t, a)
  }

  lemma MayFailMore(ms: seq<Move>, m: seq<Move>, n: nat)
    requires ms <= m && MayFail(m, n)
    ensures MayFail(ms, n)
  {
    hide Reaches, Violates;
    var ms', r, t, a :| m <= ms' && Reaches(ms', r) && |r.pc| == n && Violates(r, t, a);
    assert ms <= ms';
  }

  lemma FailsWithoutMore(ms: seq<Move>, n: nat)
    requires CanViolate(ms, n)
    ensures MayFail(ms, n)
  {
    hide Reaches, Violates;
  }

  lemma ContinuesPrefix(a: seq<Move>, b: seq<Move>)
    requires Continues(a, b)
    ensures a <= b
  {
  }

  // An entry of x: its turn comes.
  lemma {:induction false} ItsTurn(ms: seq<Move>, s: State, x: Ep) returns (ms': seq<Move>, r: State, n: nat)
    requires Reaches(ms, s) && Between(s, x) && x in s.readyList
    ensures Reaches(ms', r) && ms <= ms' && Open(r) && r.pc == s.pc[0 := Holding(x, n)]
    ensures x in r.ctx && r.ctx[x] == s.ctx[x] && r.armed == s.armed
    decreases |s.readyList|
  {
    hide Reaches, Continues, Enabled, NextState;
    if s.readyList[0] == x {
      var m, q := Take(ms, s, 0);
      MakesPopReady(q, 0);
      OneMore(m, q, 0, PopReady);
      ms', r, n := m + [Move(0, PopReady)], NextState(q, 0, PopReady), |q.readyList| - 1;
      ContinuesPrefix(ms, m);
    } else {
      var m, q := PassesBy(ms, s, x);
      assert s.readyList == [s.readyList[0]] + s.readyList[1..];
      ms', r, n := ItsTurn(m, q, x);
      ContinuesPrefix(ms, m);
      assert q.pc == s.pc;
    }
  }

  lemma FreshEp(known: set<Ep>) returns (y: Ep)
    ensures y !in known
  {
    var below := Below(|known| + 1);
    BelowSize(|known| + 1);
    if below <= known {
      SubsetSize(below, known);
    }
    y :| y in below && y !in known;
  }

  // x is armed and not ready: work is queued on a new endpoint first, then on x.
  lemma ArmedIdleFails(ms: seq<Move>, s: State, x: Ep)
    requires Reaches(ms, s) && Between(s, x) && !s.ctx[x].ready && Armed(s, x) != {}
    ensures MayFail(ms, |s.pc|)
  {
    hide Reaches, Enabled, NextState, MayFail, CanViolate;
    if x in s.readyList {
      var m, q, n := ItsTurn(ms, s, x);
      StaleEntryFails(m, q, x, n);
      MayFailMore(ms, m, |s.pc|);
    } else {
      var y := FreshEp(s.ctx.Keys);
      var m1, s1 := JoinsFresh(ms, s, y);
      Submits(m1, s1, 0, y, Recv);
      var m2, s2 := m1 + SubmitRun(0, y, Recv, false), Submitted(s1, y, Recv);
      Submits(m2, s2, 0, x, Recv);
      var m3, s3 := m2 + SubmitRun(0, x, Recv, false), Submitted(s2, x, Recv);
      BehindFails(m3, s3, x, s.readyList + [y]);
      FailsWithoutMore(m3, |s.pc|);
      MayFailMore(ms, m3, |s.pc|);
    }
  }

  lemma StaleEntryFails(ms: seq<Move>, s: State, x: Ep, n: nat)
    requires Reaches(ms, s) && Open(s) && |s.pc| >= 1 && s.pc[0] == Holding(x, n) && x in s.ctx && !s.ctx[x].ready
    ensures MayFail(ms, |s.pc|)
  {
    hide Reaches, NextState;
    MakesAcquire(s, 0, x, n);
    assert Violates(s, 0, Acquire);
  }

  lemma JoinsFresh(ms: seq<Move>, s: State, y: Ep) returns (ms': seq<Move>, r: State)
    requires Reaches(ms, s) && |s.pc| >= 1 && AllIdle(s) && y !in s.ctx
    ensures Reaches(ms', r) && ms <= ms' && r == s.(ctx := s.ctx[y := Ctx([], [], false, None)])
  {
    hide Reaches, Enabled, NextState;
    MakesJoin(s, 0, y);
    ms', r := ms + [Move(0, Join(y))], NextState(s, 0, Join(y));
    ReachesMore(ms, s, 0, Join(y));
  }

  // The thread serves x and finds that its first operations would block.
  lemma BlocksAgain(ms: seq<Move>, s: State, x: Ep, n: nat) returns (ms': seq<Move>, r: State)
    requires Reaches(ms, s) && Open(s) && |s.pc| >= 1 && s.pc[0] == Holding(x, n) && x in s.ctx && s.ctx[x].rd != []
    ensures Reaches(ms', r) && ms <= ms' && r.pc == s.pc[0 := Idle]
    ensures x in r.ctx && !r.ctx[x].ready && Armed(r, x) != {}
  {
    hide Reaches, Enabled, NextState;
    MakesAcquire(s, 0, x, n);
    var m1, s1 := ms + [Move(0, Acquire)], NextState(s, 0, Acquire);
    ReachesMore(ms, s, 0, Acquire);
    var o := s.ctx[x].rd[0].(provisioned := true);
    MakesRead(s1, 0, x, n, o, false);
    var m2, s2 := m1 + [Move(0, Read(o, false))], NextState(s1, 0, Read(o, false));
    ReachesMore(m1, s1, 0, Read(o, false));
    var m3, s3 := WritesBlock(m2, s2, x, n);
    MakesRearm(s3, 0, x, n);
    var m4, s4 := m3 + [Move(0, Rearm)], NextState(s3, 0, Rearm);
    ReachesMore(m3, s3, 0, Rearm);
    assert Rd in Nonempty(s3.ctx[x]);
    MakesRelease(s4, 0, x, ToWait(n));
    var m5, s5 := m4 + [Move(0, Release)], NextState(s4, 0, Release);
    ReachesMore(m4, s4, 0, Release);
    ms', r := StopWaiting(m5, s5, 0, n);
    assert Armed(r, x) == Nonempty(s3.ctx[x]);
    assert r.pc == s.pc[0 := Idle];
  }

  lemma WritesBlock(ms: seq<Move>, s: State, x: Ep, n: nat) returns (ms': seq<Move>, r: State)
    requires Reaches(ms, s) && |s.pc| >= 1 && s.pc[0] == Writing(x, n) && x in s.ctx
    ensures Reaches(ms', r) && ms <= ms' && r.pc == s.pc[0 := Rearming(x, n)]
    ensures x in r.ctx && r.ctx[x].rd == s.ctx[x].rd && r.ctx[x].ready == s.ctx[x].ready
  {
    hide Reaches, Enabled, NextState;
    if s.ctx[x].wr == [] {
      MakesWriteDone(s, 0, x, n);
      ReachesMore(ms, s, 0, WriteDone);
      ms', r := ms + [Move(0, WriteDone)], NextState(s, 0, WriteDone);
    } else {
      var o := s.ctx[x].wr[0].(provisioned := true);
      MakesWrite(s, 0, x, n, o, false);
      ReachesMore(ms, s, 0, Write(o, false));
      ms', r := ms + [Move(0, Write(o, false))], NextState(s, 0, Write(o, false));
    }
  }

  // With new work there is no safe state: whatever was done so far, one thread is enough to come to a failing
  // assertion.
  lemma NeverSafeForGood(ms: seq<Move>, s: State)
    requires Reaches(ms, s) && |s.pc| >= 1
    ensures MayFail(ms, |s.pc|)
  {
    hide Reaches, Continues, MayFail, Enabled, NextState;
    var m, q := Calm(ms, s);
    ContinuesPrefix(ms, m);
    var x := FreshEp(q.ctx.Keys);
    var m1, s1 := JoinsFresh(m, q, x);
    IdleIsOpen(m1, s1);
    Submits(m1, s1, 0, x, Recv);
    var m2, s2 := m1 + SubmitRun(0, x, Recv, false), Submitted(s1, x, Recv);
    IdleIsOpen(m2, s2);
    var m3, s3, n := ItsTurn(m2, s2, x);
    var m4, s4 := BlocksAgain(m3, s3, x, n);
    assert s4.pc == s2.pc;
    IdleIsOpen(m4, s4);
    ArmedIdleFails(m4, s4, x);
    MayFailMore(ms, m4, |s.pc|);
  }
}
