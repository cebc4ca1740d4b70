/**
 Runs along which the debug assertions on the ready flag hold. An endpoint can be due for service in several ways at
 once: on the ready list, popped or about to be pushed by a thread, covered by an event, or armed. The flag is exact,
 and the assertions hold, as long as each endpoint is due in one way at most.
 */
module MuxReady {
  import opened Prelude
  import opened MuxModel
  import opened MuxMoves
  import opened MuxInvariant
  import opened MuxTheorems
  import opened MuxCallbacks
  import opened MuxRuns

  // ----- Counting the ways an endpoint is due -----

  function Claim(pc: Pc, x: Ep): nat {
    if Claims(pc, x) then 1 else 0
  }

  function EventCount(events: seq<Event>, x: Ep): nat {
    if events == [] then 0 else (if events[0].ep == x then 1 else 0) + EventCount(events[1..], x)
  }

  function ClaimSum(pcs: seq<Pc>, x: Ep): nat {
    if pcs == [] then 0 else Claim(pcs[0], x) + ClaimSum(pcs[1..], x)
  }

  function EventSum(pcs: seq<Pc>, x: Ep): nat {
    if pcs == [] then 0 else EventCount(EventsOf(pcs[0]), x) + EventSum(pcs[1..], x)
  }

  // Ready-list entries of x, listed, popped or about to be pushed.
  function Entries(s: State, x: Ep): nat {
    multiset(s.readyList)[x] + ClaimSum(s.pc, x)
  }

  // Events of x, undelivered or still possible.
  function Signals(s: State, x: Ep): nat {
    EventSum(s.pc, x) + if Armed(s, x) != {} then 1 else 0
  }

  lemma {:induction false} SumsUpdate(pcs: seq<Pc>, t: nat, pc: Pc, x: Ep)
    requires t < |pcs|
    ensures ClaimSum(pcs[t := pc], x) + Claim(pcs[t], x) == ClaimSum(pcs, x) + Claim(pc, x)
    ensures EventSum(pcs[t := pc], x) + EventCount(EventsOf(pcs[t]), x)
      == EventSum(pcs, x) + EventCount(EventsOf(pc), x)
  {
    hide Claim, EventsOf, EventCount;
    var qs := pcs[t := pc];
    if t == 0 {
      assert qs[1..] == pcs[1..];
    } else {
      assert qs[1..] == pcs[1..][t - 1 := pc];
      SumsUpdate(pcs[1..], t - 1, pc, x);
    }
  }

  lemma {:induction false} SumsAtLeast(pcs: seq<Pc>, t: nat, x: Ep)
    requires t < |pcs|
    ensures Claim(pcs[t], x) <= ClaimSum(pcs, x) && EventCount(EventsOf(pcs[t]), x) <= EventSum(pcs, x)
  {
    hide Claim, EventsOf, EventCount;
    if t > 0 {
      SumsAtLeast(pcs[1..], t - 1, x);
    }
  }

  lemma {:induction false} SumsZero(pcs: seq<Pc>, x: Ep)
    ensures ClaimSum(pcs, x) > 0 ==> exists t :: 0 <= t < |pcs| && Claims(pcs[t], x)
    ensures EventSum(pcs, x) > 0 ==> exists t :: 0 <= t < |pcs| && HasEvent(EventsOf(pcs[t]), x)
  {
    hide EventsOf, EventCount, Claims, HasEvent;
    if pcs != [] {
      SumsZero(pcs[1..], x);
      EventsCounted(EventsOf(pcs[0]), x);
      if t :| 0 <= t < |pcs[1..]| && Claims(pcs[1..][t], x) {
        assert Claims(pcs[t + 1], x);
      }
      if t :| 0 <= t < |pcs[1..]| && HasEvent(EventsOf(pcs[1..][t]), x) {
        assert HasEvent(EventsOf(pcs[t + 1]), x);
      }
    }
  }

  lemma {:induction false} EventsCounted(events: seq<Event>, x: Ep)
    ensures EventCount(events, x) > 0 <==> HasEvent(events, x)
  {
    if events != [] {
      EventsCounted(events[1..], x);
      HasEventTail(events, x);
    }
  }

  lemma {:induction false} DistinctEvents(events: seq<Event>, x: Ep)
    requires forall i, j :: 0 <= i < j < |events| ==> events[i].ep != events[j].ep
    ensures EventCount(events, x) <= 1
  {
    if events != [] {
      var rest := events[1..];
      assert forall i :: 0 <= i < |rest| ==> rest[i] == events[i + 1] && rest[i].ep != events[0].ep;
      DistinctEvents(rest, x);
      EventsCounted(rest, x);
    }
  }

  // x is armed or an event of it is under way.
  ghost predicate Covered(s: State, x: Ep) {
    Armed(s, x) != {} || exists t :: 0 <= t < |s.pc| && HasEvent(EventsOf(s.pc[t]), x)
  }

  lemma CoveredCounts(s: State, x: Ep)
    ensures Covered(s, x) <==> Signals(s, x) > 0
  {
    hide EventsOf, EventCount, Claims, HasEvent;
    SumsZero(s.pc, x);
    if t :| 0 <= t < |s.pc| && HasEvent(EventsOf(s.pc[t]), x) {
      EventsCounted(EventsOf(s.pc[t]), x);
      SumsAtLeast(s.pc, t, x);
    }
  }

  // ----- How a step changes the counts -----

  // The step takes the lock for an entry of x.
  predicate TakesEntry(s: State, t: Tid, a: Action, x: Ep)
    requires Enabled(s, t, a)
  {
    a.Acquire? && s.pc[t].ep == x
  }

  // The step sets the flag of x, to push x next.
  predicate MakesEntry(s: State, t: Tid, a: Action, x: Ep)
    requires Enabled(s, t, a)
  {
    || (a.Check? && s.pc[t].ep == x && !s.ctx[x].ready)
    || (a.Handle? && s.pc[t].events[0].ep == x && !s.pc[t].events[0].err)
  }

  function One(b: bool): nat {
    if b then 1 else 0
  }

  lemma EntryQuiet(s: State, t: Tid, a: Action, x: Ep)
    requires Enabled(s, t, a) && !a.PopReady? && !a.Post? && !a.Acquire? && !a.Check? && !a.Handle?
    ensures var r := NextState(s, t, a);
      t < |r.pc| && (Claims(r.pc[t], x) <==> Claims(s.pc[t], x)) && r.readyList == s.readyList
  {
    hide PerformResult, Reportable, Disarm, Nonempty, Report;
  }

  lemma EntryListed(s: State, t: Tid, a: Action, x: Ep)
    requires Enabled(s, t, a) && (a.PopReady? || a.Post?)
    ensures var r := NextState(s, t, a);
      t < |r.pc| && Claim(r.pc[t], x) + multiset(r.readyList)[x] == Claim(s.pc[t], x) + multiset(s.readyList)[x]
  {
    hide NextState, PerformResult, Reportable, Disarm, Nonempty, Report;
    if a.PopReady? {
      MakesPopReady(s, t);
      if s.readyList != [] {
        assert s.readyList == [s.readyList[0]] + s.readyList[1..];
      }
    } else {
      MakesPost(s, t, s.pc[t].ep, s.pc[t].next);
    }
  }

  lemma EntryLocked(s: State, t: Tid, a: Action, x: Ep)
    requires Enabled(s, t, a) && (a.Acquire? || a.Check? || a.Handle?)
    ensures var r := NextState(s, t, a);
      && t < |r.pc| && r.readyList == s.readyList
      && Claim(r.pc[t], x) + One(TakesEntry(s, t, a, x)) == Claim(s.pc[t], x) + One(MakesEntry(s, t, a, x))
  {
    hide NextState, PerformResult, Reportable, Disarm, Nonempty, Report;
    match a {
      case Acquire => MakesAcquire(s, t, s.pc[t].ep, s.pc[t].pending);
      case Check => MakesCheck(s, t, s.pc[t].ep);
      case Handle => MakesHandle(s, t, s.pc[t].events);
    }
  }

  lemma EntryMoves(s: State, t: Tid, a: Action, x: Ep)
    requires Enabled(s, t, a)
    ensures var r := NextState(s, t, a);
      && t < |r.pc|
      && Claim(r.pc[t], x) + multiset(r.readyList)[x] + One(TakesEntry(s, t, a, x))
        == Claim(s.pc[t], x) + multiset(s.readyList)[x] + One(MakesEntry(s, t, a, x))
  {
    hide Enabled, NextState;
    if a.PopReady? || a.Post? {
      EntryListed(s, t, a, x);
    } else if a.Acquire? || a.Check? || a.Handle? {
      EntryLocked(s, t, a, x);
    } else {
      EntryQuiet(s, t, a, x);
    }
  }

  // Entries come from raising the flag and go with the lock.
  lemma EntriesStep(s: State, t: Tid, a: Action, x: Ep)
    requires Enabled(s, t, a)
    ensures Entries(NextState(s, t, a), x) + One(TakesEntry(s, t, a, x))
      == Entries(s, x) + One(MakesEntry(s, t, a, x))
  {
    hide Enabled, NextState, Claim, ClaimSum, EventSum, EventCount, TakesEntry, MakesEntry, EventsOf;
    EntryMoves(s, t, a, x);
    StepCalls(s, t, a);
    SumsUpdate(s.pc, t, NextState(s, t, a).pc[t], x);
  }

  function ArmedOne(s: State, x: Ep): nat {
    One(Armed(s, x) != {})
  }

  lemma ArmedQuiet(s: State, t: Tid, a: Action, x: Ep)
    requires Enabled(s, t, a) && !a.Wait?
    ensures var r := NextState(s, t, a);
      Armed(r, x) == if a.Rearm? && s.pc[t].ep == x && Nonempty(s.ctx[x]) != {} then Nonempty(s.ctx[x]) else Armed(s, x)
  {
    hide PerformResult, Reportable, Disarm, Nonempty, Report;
  }

  lemma ArmedWait(s: State, t: Tid, events: seq<Event>, x: Ep)
    requires Enabled(s, t, Wait(events))
    ensures EventsOf(s.pc[t]) == [] && EventCount(events, x) <= 1
    ensures ArmedOne(NextState(s, t, Wait(events)), x) + EventCount(events, x) == ArmedOne(s, x)
  {
    hide EventCount;
    DistinctEvents(events, x);
    EventsCounted(events, x);
    var r := NextState(s, t, Wait(events));
    if i :| 0 <= i < |events| && events[i].ep == x {
      assert Armed(r, x) == {};
    } else {
      assert Armed(r, x) == Armed(s, x);
    }
  }

  // Signals come only from rearming; waiting turns an armed endpoint into an event, handling uses an event up.
  lemma SignalsStep(s: State, t: Tid, a: Action, x: Ep)
    requires Enabled(s, t, a)
    ensures a.Handle? && s.pc[t].events[0].ep == x ==> Signals(s, x) == Signals(NextState(s, t, a), x) + 1
    ensures !(a.Handle? && s.pc[t].events[0].ep == x) && !(a.Rearm? && s.pc[t].ep == x) ==>
      Signals(NextState(s, t, a), x) == Signals(s, x)
    ensures a.Rearm? && s.pc[t].ep == x ==> Signals(NextState(s, t, a), x) <= Signals(s, x) + 1
  {
    hide NextState, EventSum, ClaimSum, EventsOf, Claim, Reportable, PerformResult, Nonempty;
    var r := NextState(s, t, a);
    StepCalls(s, t, a);
    SumsUpdate(s.pc, t, r.pc[t], x);
    StepEvents(s, t, a);
    if a.Wait? {
      ArmedWait(s, t, a.events, x);
    } else {
      ArmedQuiet(s, t, a, x);
      if a.Handle? {
        HandledEvents(s, t);
      }
    }
  }

  lemma HandledEvents(s: State, t: Tid)
    requires Enabled(s, t, Handle)
    ensures s.pc[t].Handling? && EventsOf(s.pc[t]) == s.pc[t].events != []
  {
  }

  // ----- At most one way at a time -----

  // x is due in one way at most, none while it is served, and its flag says whether there is an entry for it.
  ghost predicate DueOnce(s: State, x: Ep) {
    && Entries(s, x) + Signals(s, x) <= 1
    && (Flag(s, x) <==> Entries(s, x) == 1)
    && (x in s.ctx && Serves(OwnerPc(s, x)) ==> Entries(s, x) + Signals(s, x) == 0)
  }

  // The run's next move queues work on an endpoint that is covered.
  ghost predicate Unclean(s: State, t: Tid, a: Action) {
    a.Check? && t < |s.pc| && s.pc[t].Checking? && Covered(s, s.pc[t].ep)
  }

  // What the debug assertions say: the flag is set when an entry is served, and clear when an event is handled.
  ghost predicate Violates(s: State, t: Tid, a: Action) {
    && Enabled(s, t, a)
    && ((a.Acquire? && !s.ctx[s.pc[t].ep].ready) || (a.Handle? && s.ctx[s.pc[t].events[0].ep].ready))
  }

  // The flag of x as one value.
  predicate Flag(s: State, x: Ep) {
    x in s.ctx && s.ctx[x].ready
  }

  lemma FlagServing(s: State, t: Tid, a: Action, x: Ep)
    requires Enabled(s, t, a) && ServesQueue(a)
    ensures Flag(NextState(s, t, a), x) == Flag(s, x)
  {
    hide PerformResult, Reportable, Disarm, Nonempty, Report;
  }

  lemma FlagQuiet(s: State, t: Tid, a: Action, x: Ep)
    requires Enabled(s, t, a) && !ServesQueue(a) && !a.Acquire? && !a.Check? && !a.Handle?
    ensures Flag(NextState(s, t, a), x) == Flag(s, x)
  {
    hide PerformResult, Reportable, Disarm, Nonempty, Report;
  }

  lemma FlagLocked(s: State, t: Tid, a: Action, x: Ep)
    requires Enabled(s, t, a) && (a.Acquire? || a.Check? || a.Handle?)
    ensures Flag(NextState(s, t, a), x) ==
      if TakesEntry(s, t, a, x) then false
      else if a.Handle? && s.pc[t].events[0].ep == x then !s.pc[t].events[0].err
      else Flag(s, x) || MakesEntry(s, t, a, x)
  {
    hide NextState, PerformResult, Reportable, Disarm, Nonempty, Report;
    match a {
      case Acquire => MakesAcquire(s, t, s.pc[t].ep, s.pc[t].pending);
      case Check => MakesCheck(s, t, s.pc[t].ep);
      case Handle => MakesHandle(s, t, s.pc[t].events);
    }
  }

  lemma FlagStep(s: State, t: Tid, a: Action, x: Ep)
    requires Enabled(s, t, a)
    ensures Flag(NextState(s, t, a), x) ==
      if TakesEntry(s, t, a, x) then false
      else if a.Handle? && s.pc[t].events[0].ep == x then !s.pc[t].events[0].err
      else Flag(s, x) || MakesEntry(s, t, a, x)
  {
    hide Enabled, NextState, Flag;
    if ServesQueue(a) {
      FlagServing(s, t, a, x);
    } else if a.Acquire? || a.Check? || a.Handle? {
      FlagLocked(s, t, a, x);
    } else {
      FlagQuiet(s, t, a, x);
    }
  }

  lemma OwnerStep(s: State, t: Tid, a: Action, x: Ep)
    requires LocksOk(s) && Enabled(s, t, a)
    ensures var r := NextState(s, t, a);
      && t < |r.pc|
      && (x !in s.ctx && x in r.ctx ==> OwnerPc(r, x) == Idle)
      && (x in s.ctx && Focus(s, t, a) != Some(x) ==> x in r.ctx && OwnerPc(r, x) == OwnerPc(s, x))
      && (Focus(s, t, a) == Some(x) ==>
            x in s.ctx && x in r.ctx
            && OwnerPc(r, x) == (if LockedEp(r.pc[t]).Some? then r.pc[t] else Idle)
            && OwnerPc(s, x) == (if LockedEp(s.pc[t]).Some? then s.pc[t] else Idle))
  {
    hide NextState, Enabled, Focus;
    StepMoves(s, t, a);
    StepLock(s, t, a);
    LocksStep(s, t, a);
  }

  // A thread gets to serve x only by locking it for an entry, and stops at the rearming.
  lemma ServingStep(s: State, t: Tid, a: Action, x: Ep)
    requires Enabled(s, t, a) && Focus(s, t, a) == Some(x)
    ensures var r := NextState(s, t, a);
      && t < |r.pc|
      && (Serves(r.pc[t]) ==> a.Acquire? || (Serves(s.pc[t]) && !a.Rearm? && !a.Check? && !a.Handle?))
      && (a.Acquire? ==> TakesEntry(s, t, a, x))
      && (a.Rearm? ==> Serves(s.pc[t]) && LockedEp(s.pc[t]).Some? && s.pc[t].ep == x)
  {
    hide PerformResult, Reportable, Disarm, Nonempty, Report;
  }

  // What the mover has in hand counts.
  lemma InHand(s: State, t: Tid, a: Action, x: Ep)
    requires Enabled(s, t, a)
    ensures TakesEntry(s, t, a, x) ==> Entries(s, x) >= 1
    ensures a.Handle? && s.pc[t].events[0].ep == x ==> Signals(s, x) >= 1
    ensures TakesEntry(s, t, a, x) || MakesEntry(s, t, a, x) ==> Focus(s, t, a) == Some(x)
    ensures a.Handle? && s.pc[t].events[0].ep == x ==> Focus(s, t, a) == Some(x)
    ensures a.Rearm? && s.pc[t].ep == x ==> Focus(s, t, a) == Some(x)
    ensures t < |s.pc| && (a.Check? ==> s.pc[t].Checking?)
  {
    hide NextState, Reportable, PerformResult, Nonempty;
    SumsAtLeast(s.pc, t, x);
  }

  lemma DueStep(s: State, t: Tid, a: Action, x: Ep)
    requires LocksOk(s) && Enabled(s, t, a) && DueOnce(s, x) && !(Unclean(s, t, a) && s.pc[t].ep == x)
    ensures DueOnce(NextState(s, t, a), x)
  {
    hide LocksOk, Enabled, NextState, Entries, Signals, Covered, Focus, OwnerPc;
    var r := NextState(s, t, a);
    EntriesStep(s, t, a, x);
    SignalsStep(s, t, a, x);
    FlagStep(s, t, a, x);
    InHand(s, t, a, x);
    CoveredCounts(s, x);
    OwnerStep(s, t, a, x);
    if Focus(s, t, a) == Some(x) {
      ServingStep(s, t, a, x);
    }
  }

  // ----- The theorem for runs -----

  // A run in which work is never queued on a covered endpoint.
  ghost predicate CleanRun(ms: seq<Move>, s: State)
    decreases |ms|
  {
    if ms == [] then Initial(s)
    else
      var last := ms[|ms| - 1];
      exists r :: CleanRun(ms[..|ms| - 1], r)
        && Enabled(r, last.t, last.a) && s == NextState(r, last.t, last.a) && !Unclean(r, last.t, last.a)
  }

  ghost predicate AllDueOnce(s: State) {
    forall x :: DueOnce(s, x)
  }

  lemma {:induction false} CleanFacts(ms: seq<Move>, s: State)
    requires CleanRun(ms, s)
    ensures Reaches(ms, s) && AllDueOnce(s)
    decreases |ms|
  {
    hide NextState, Enabled, Unclean, DueOnce;
    if ms == [] {
      forall x ensures DueOnce(s, x) {
        InitiallyDue(s, x);
      }
    } else {
      var init, last := ms[..|ms| - 1], ms[|ms| - 1];
      var r :| CleanRun(init, r) && Enabled(r, last.t, last.a) && s == NextState(r, last.t, last.a)
        && !Unclean(r, last.t, last.a);
      CleanFacts(init, r);
      HolderInv(init, r);
      forall x ensures DueOnce(s, x) {
        DueStep(r, last.t, last.a, x);
      }
      assert Reaches(init, r);
    }
  }

  lemma InitiallyDue(s: State, x: Ep)
    requires Initial(s)
    ensures DueOnce(s, x)
  {
    hide HasEvent;
    SumsZero(s.pc, x);
    if EventSum(s.pc, x) > 0 {
      var t :| 0 <= t < |s.pc| && HasEvent(EventsOf(s.pc[t]), x);
      NoEvents(x);
    }
  }

  lemma NoEvents(x: Ep)
    ensures !HasEvent([], x)
  {
  }

  // Along every clean run no debug assertion on the flag fails, and no endpoint is listed twice.
  lemma CleanRunsAssert(ms: seq<Move>, s: State)
    requires CleanRun(ms, s)
    ensures forall t, a :: !Violates(s, t, a)
    ensures forall i, j :: 0 <= i < j < |s.readyList| ==> s.readyList[i] != s.readyList[j]
  {
    hide CleanRun, Reaches, NextState, Enabled, DueOnce;
    CleanFacts(ms, s);
    forall t, a ensures !Violates(s, t, a) {
      if Violates(s, t, a) {
        DueAsserts(s, t, a);
      }
    }
    forall i, j | 0 <= i < j < |s.readyList| ensures s.readyList[i] != s.readyList[j] {
      if s.readyList[i] == s.readyList[j] {
        ListedTwice(s.readyList, i, j);
        DueOnceListed(s, s.readyList[i]);
      }
    }
  }

  lemma DueAsserts(s: State, t: Tid, a: Action)
    requires Enabled(s, t, a) && AllDueOnce(s)
    ensures !Violates(s, t, a)
  {
    hide NextState, Entries, Signals, OwnerPc, Serves;
    if Violates(s, t, a) {
      var x := if a.Acquire? then s.pc[t].ep else s.pc[t].events[0].ep;
      assert DueOnce(s, x);
      InHand(s, t, a, x);
    }
  }

  lemma DueOnceListed(s: State, x: Ep)
    requires DueOnce(s, x)
    ensures multiset(s.readyList)[x] <= 1
  {
  }

  lemma ListedTwice<T>(q: seq<T>, i: nat, j: nat)
    requires i < j < |q| && q[i] == q[j]
    ensures multiset(q)[q[i]] >= 2
  {
    assert q == q[..j] + [q[j]] + q[j + 1..];
    assert q[..j][i] == q[i] && q[i] in multiset(q[..j]);
  }

  // ----- And only along those -----

  // Some continuation of n threads without new work runs into a failing assertion.
  ghost predicate CanViolate(ms: seq<Move>, n: nat) {
    exists ms', r, t, a :: Reaches(ms', r) && |r.pc| == n && Continues(ms, ms') && Violates(r, t, a)
  }

  lemma CanViolateMore(ms: seq<Move>, m: seq<Move>, n: nat)
    requires Continues(ms, m) && CanViolate(m, n)
    ensures CanViolate(ms, n)
  {
    hide Reaches, Continues, Violates;
    var ms', r, t, a :| Reaches(ms', r) && |r.pc| == n && Continues(m, ms') && Violates(r, t, a);
    ContinuesMore(ms, m, ms');
  }

  lemma ViolatesNow(ms: seq<Move>, s: State, t: Tid, a: Action)
    requires Reaches(ms, s) && Violates(s, t, a)
    ensures CanViolate(ms, |s.pc|)
  {
    hide Reaches;
    ContinuesSelf(ms);
  }

  // All locks are free and the flag of x is set.
  ghost predicate Raised(s: State, x: Ep) {
    Open(s) && x in s.ctx && s.ctx[x].ready
  }

  // An event of x is handled, after those in front of it.
  lemma {:induction false} EventFires(ms: seq<Move>, s: State, t: Tid, x: Ep, events: seq<Event>)
    requires Reaches(ms, s) && Raised(s, x) && t < |s.pc| && s.pc[t] == Handling(events) && HasEvent(events, x)
    ensures CanViolate(ms, |s.pc|)
    decreases |events|
  {
    hide Reaches, Continues, CanViolate, NextState, HasEvent;
    NoEvents(x);
    assert events != [];
    HasEventTail(events, x);
    if events[0].ep == x {
      MakesHandle(s, t, events);
      ViolatesNow(ms, s, t, Handle);
    } else {
      var m, q := HandleOne(ms, s, t, events);
      EventFires(m, q, t, x, events[1..]);
      CanViolateMore(ms, m, |s.pc|);
    }
  }

  // A thread that waits takes an event of x.
  lemma WaitFires(ms: seq<Move>, s: State, t: Tid, x: Ep)
    requires Reaches(ms, s) && Raised(s, x) && Armed(s, x) != {} && t < |s.pc| && Ripe(s.pc[t], x) && s.pc[t].AtWait?
    ensures CanViolate(ms, |s.pc|)
  {
    hide Reaches, Continues, CanViolate, NextState, Enabled;
    var d :| d in Armed(s, x);
    var events := [Event(x, false, {d})];
    MakesWait(s, t, s.pc[t].pending, events);
    OneMore(ms, s, t, Wait(events));
    var m, q := ms + [Move(t, Wait(events))], NextState(s, t, Wait(events));
    assert events[0].ep == x;
    EventFires(m, q, t, x, events);
    CanViolateMore(ms, m, |s.pc|);
  }

  // Two threads hold an entry of x: the second finds the flag cleared by the first.
  lemma TwiceFires(ms: seq<Move>, s: State, t: Tid, u: Tid, x: Ep)
    requires Reaches(ms, s) && Raised(s, x) && t < |s.pc| && u < |s.pc| && t != u
    requires s.pc[t].Holding? && s.pc[t].ep == x && s.pc[u].Holding? && s.pc[u].ep == x
    ensures CanViolate(ms, |s.pc|)
  {
    hide Reaches, Continues, CanViolate, NextState;
    var m, q := Serve(ms, s, t, x, s.pc[t].pending);
    MakesAcquire(q, u, x, q.pc[u].pending);
    ViolatesNow(m, q, u, Acquire);
    CanViolateMore(ms, m, |s.pc|);
  }

  // Where a thread can take an event, or the lock of x.
  predicate Ripe(pc: Pc, x: Ep) {
    (pc.AtWait? && pc.pending < MAX_READY_LIST_LEN) || (pc.Holding? && pc.ep == x)
  }

  // What a thread on its way there leaves alone.
  ghost predicate Beside(s: State, r: State, t: Tid, x: Ep) {
    && Open(r) && t < |s.pc| == |r.pc| && r.pc == s.pc[t := r.pc[t]]
    && x in s.ctx && x in r.ctx && r.ctx[x] == s.ctx[x] && Armed(r, x) == Armed(s, x)
  }

  lemma BesideMore(a: State, b: State, c: State, t: Tid, x: Ep)
    requires Beside(a, b, t, x) && Beside(b, c, t, x)
    ensures Beside(a, c, t, x)
  {
  }

  function Rank(pc: Pc): nat {
    match pc
    case Calling(_) => 1
    case Idle => 2
    case AtWait(_) => 3
    case Holding(_, _) => 4
    case _ => 0
  }

  // One leg of the way.
  lemma OneLeg(ms: seq<Move>, s: State, t: Tid, x: Ep) returns (ms': seq<Move>, r: State)
    requires Reaches(ms, s) && Open(s) && t < |s.pc| && x in s.ctx && !HasEvent(EventsOf(s.pc[t]), x)
    requires !Ripe(s.pc[t], x)
    ensures Reaches(ms', r) && Continues(ms, ms') && Beside(s, r, t, x) && !r.pc[t].Handling?
    ensures || Ripe(r.pc[t], x) || s.pc[t].Handling? || |r.readyList| < |s.readyList|
            || (r.readyList == s.readyList && Rank(r.pc[t]) < Rank(s.pc[t]))
  {
    hide Reaches, Continues, NextState, Enabled;
    match s.pc[t] {
      case Idle =>
        MakesPopCompleted(s, t);
        OneMore(ms, s, t, PopCompleted);
        ms', r := ms + [Move(t, PopCompleted)], NextState(s, t, PopCompleted);
      case Calling(o) => ms', r := CallIt(ms, s, t, o);
      case AtReadyList =>
        MakesPopReady(s, t);
        OneMore(ms, s, t, PopReady);
        ms', r := ms + [Move(t, PopReady)], NextState(s, t, PopReady);
      case Holding(y, n) => ms', r := Serve(ms, s, t, y, n);
      case AtWait(n) => ms', r := StopWaiting(ms, s, t, n);
      case Handling(events) =>
        ms', r := HandleAll(ms, s, t, events);
        assert x !in set e <- events :: e.ep;
    }
  }

  lemma {:induction false} ToRipe(ms: seq<Move>, s: State, t: Tid, x: Ep) returns (ms': seq<Move>, r: State)
    requires Reaches(ms, s) && Open(s) && t < |s.pc| && x in s.ctx && !HasEvent(EventsOf(s.pc[t]), x)
    ensures Reaches(ms', r) && Continues(ms, ms') && Beside(s, r, t, x) && Ripe(r.pc[t], x)
    decreases if s.pc[t].Handling? then 1 else 0, |s.readyList|, Rank(s.pc[t])
  {
    hide Reaches, Continues, Open, HasEvent, Rank;
    if Ripe(s.pc[t], x) {
      ContinuesSelf(ms);
      ms', r := ms, s;
    } else {
      var m, q := OneLeg(ms, s, t, x);
      if Ripe(q.pc[t], x) {
        ms', r := m, q;
      } else {
        UnlockedHasNone(q, t, x);
        ms', r := ToRipe(m, q, t, x);
        ContinuesMore(ms, m, ms');
        BesideMore(s, q, r, t, x);
      }
    }
  }

  lemma UnlockedHasNone(s: State, t: Tid, x: Ep)
    requires Open(s) && t < |s.pc| && !s.pc[t].Handling?
    ensures !HasEvent(EventsOf(s.pc[t]), x)
  {
  }

  lemma ArmedFires(ms: seq<Move>, s: State, x: Ep)
    requires Reaches(ms, s) && Raised(s, x) && Armed(s, x) != {} && |s.pc| >= 2
    requires forall t :: 0 <= t < |s.pc| ==> !HasEvent(EventsOf(s.pc[t]), x)
    ensures CanViolate(ms, |s.pc|)
  {
    hide Reaches, Continues, CanViolate, EventsOf, HasEvent, Open;
    var m, q := ToRipe(ms, s, 0, x);
    if q.pc[0].AtWait? {
      WaitFires(m, q, 0, x);
    } else {
      var n, r := ToRipe(m, q, 1, x);
      if r.pc[1].AtWait? {
        WaitFires(n, r, 1, x);
      } else {
        TwiceFires(n, r, 0, 1, x);
      }
      CanViolateMore(m, n, |s.pc|);
    }
    CanViolateMore(ms, m, |s.pc|);
  }

  // As soon as work is queued on a covered endpoint, with a second thread around, an assertion can fail.
  lemma UncleanViolates(ms: seq<Move>, s: State, t: Tid)
    requires Reaches(ms, s) && Unclean(s, t, Check) && |s.pc| >= 2
    ensures Enabled(s, t, Check) && CanViolate(ms + [Move(t, Check)], |s.pc|)
  {
    hide Reaches, Continues, CanViolate, NextState, EventsOf, HasEvent, Covered, Framed, Finished, Settles;
    var x := s.pc[t].ep;
    HolderInv(ms, s);
    MakesCheck(s, t, x);
    OneMore(ms, s, t, Check);
    var m1, s1 := ms + [Move(t, Check)], NextState(s, t, Check);
    var m2, s2 := Finish(m1, s1, t, x);
    FinishedRaised(s, s1, s2, t, x);
    var m3, s3 := ReleaseAll(m2, s2, |s2.pc|);
    SettledRaised(s2, s3, x);
    NobodyLocks(m3, s3);
    CoveredFires(m3, s3, x);
    ContinuesMore(m1, m2, m3);
    CanViolateMore(m1, m3, |s.pc|);
  }

  lemma FinishedRaised(s: State, q: State, r: State, t: Tid, x: Ep)
    requires Unclean(s, t, Check) && x == s.pc[t].ep && x in s.ctx
    requires Enabled(s, t, Check) && q == NextState(s, t, Check)
    requires Framed(q, r, t, x) && Finished(q, r, t, x)
    ensures Free(r, x) && r.ctx[x].ready && Covered(r, x) && |r.pc| == |s.pc|
  {
    assert EventsOf(s.pc[t]) == EventsOf(q.pc[t]) == [];
    if Armed(s, x) == {} {
      var u :| 0 <= u < |s.pc| && HasEvent(EventsOf(s.pc[u]), x);
      assert HasEvent(EventsOf(r.pc[u]), x);
    }
  }

  lemma SettledRaised(s: State, r: State, x: Ep)
    requires Settles(s, r) && Free(s, x) && s.ctx[x].ready && Covered(s, x)
    ensures |r.pc| == |s.pc| && x in r.ctx && r.ctx[x].ready && Covered(r, x)
  {
    if Armed(s, x) == {} {
      var u :| 0 <= u < |s.pc| && HasEvent(EventsOf(s.pc[u]), x);
      assert HasEvent(EventsOf(r.pc[u]), x);
    }
  }

  lemma CoveredFires(ms: seq<Move>, s: State, x: Ep)
    requires Reaches(ms, s) && Raised(s, x) && Covered(s, x) && |s.pc| >= 2
    ensures CanViolate(ms, |s.pc|)
  {
    hide Reaches, CanViolate, HasEvent;
    if t :| 0 <= t < |s.pc| && HasEvent(EventsOf(s.pc[t]), x) {
      if !s.pc[t].Handling? {
        UnlockedHasNone(s, t, x);
      }
      EventFires(ms, s, t, x, s.pc[t].events);
    } else {
      ArmedFires(ms, s, x);
    }
  }
}
