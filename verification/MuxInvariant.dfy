/** What every step of the multiplexer keeps. */
module MuxInvariant {
  import opened Prelude
  import opened MuxModel
  import opened MuxMoves

  // ----- Locks: a context's owner is the one thread inside its critical section -----

  ghost predicate LocksOk(s: State) {
    && (forall t :: 0 <= t < |s.pc| && LockedEp(s.pc[t]).Some? ==>
          LockedEp(s.pc[t]).value in s.ctx && s.ctx[LockedEp(s.pc[t]).value].owner == Some(t))
    && (forall ep :: ep in s.ctx && s.ctx[ep].owner.Some? ==>
          s.ctx[ep].owner.value < |s.pc| && LockedEp(s.pc[s.ctx[ep].owner.value]) == Some(ep))
  }

  // ----- Queues: what is queued where, and how far a lock holder has got -----

  predicate Belongs(o: Overlapped, ep: Ep, d: Dir) {
    o.ep == ep && DirOf(o.iotype) == d
  }

  ghost predicate QueueOk(c: Ctx, ep: Ep) {
    && (forall i :: 0 <= i < |c.rd| ==> Belongs(c.rd[i], ep, Rd))
    && (forall i :: 0 <= i < |c.wr| ==> Belongs(c.wr[i], ep, Wr))
  }

  predicate PcFits(pc: Pc, c: Ctx) {
    && (pc.ReadPosted? ==> c.rd != [])
    && (pc.WritePosted? ==> c.wr != [])
    && (pc.Flushing? ==> pc.done <= |c.rd| + |c.wr|)
  }

  ghost predicate QueuesOk(s: State) {
    && (forall ep :: ep in s.ctx ==> QueueOk(s.ctx[ep], ep))
    && (forall t :: 0 <= t < |s.pc| && LockedEp(s.pc[t]).Some? && LockedEp(s.pc[t]).value in s.ctx ==>
          PcFits(s.pc[t], s.ctx[LockedEp(s.pc[t]).value]))
  }

  // ----- Accounting: no operation is lost, duplicated or overtaken -----

  // What identifies an operation wherever it is.
  datatype Stamp = Stamp(id: nat, iotype: IoType)

  function StampOf(o: Overlapped): Stamp {
    Stamp(o.id, o.iotype)
  }

  // The operations of one endpoint and direction, in order.
  function Stamps(s: seq<Overlapped>, ep: Ep, d: Dir): seq<Stamp> {
    if s == [] then [] else StampIf(s[0], ep, d) + Stamps(s[1..], ep, d)
  }

  function StampIf(o: Overlapped, ep: Ep, d: Dir): seq<Stamp> {
    if Belongs(o, ep, d) then [StampOf(o)] else []
  }

  function QueueOf(c: Ctx, d: Dir): seq<Overlapped> {
    if d == Rd then c.rd else c.wr
  }

  // How many operations at the head of a queue its lock holder has already put on the completion list.
  function Posted(pc: Pc, c: Ctx, d: Dir): nat {
    match pc
    case ReadPosted(_, _) => if d == Rd then 1 else 0
    case WritePosted(_, _) => if d == Wr then 1 else 0
    case Flushing(_, done, _) =>
      if d == Rd then (if done < |c.rd| then done else |c.rd|)
      else if done < |c.rd| then 0 else done - |c.rd|
    case _ => 0
  }

  // The operations of a queue that are still to be put on the completion list, when pc is serving it.
  function LocalPending(c: Ctx, pc: Pc, d: Dir): seq<Overlapped> {
    var n := Posted(pc, c, d);
    if n <= |QueueOf(c, d)| then QueueOf(c, d)[n..] else []
  }

  function OwnerPc(s: State, ep: Ep): Pc
    requires ep in s.ctx
  {
    var w := s.ctx[ep].owner;
    if w.Some? && w.value < |s.pc| then s.pc[w.value] else Idle
  }

  function Pending(s: State, ep: Ep, d: Dir): seq<Overlapped> {
    if ep in s.ctx then LocalPending(s.ctx[ep], OwnerPc(s, ep), d) else []
  }

  ghost predicate Accounted(s: State, ep: Ep, d: Dir) {
    Stamps(s.submitted, ep, d)
      == Stamps(s.popped, ep, d) + Stamps(s.completion, ep, d) + Stamps(Pending(s, ep, d), ep, d)
  }

  ghost predicate AccountingOk(s: State) {
    && (forall ep: Ep, d: Dir :: Accounted(s, ep, d))
    && (forall i :: 0 <= i < |s.submitted| ==> s.submitted[i].id == i)
  }

  // ----- Readiness: nothing queued is forgotten -----

  function EventsOf(pc: Pc): seq<Event> {
    match pc
    case Handling(events) => events
    case Flushing(_, _, rest) => rest
    case Posting(_, ToEvents(events)) => events
    case Leaving(_, ToEvents(events)) => events
    case _ => []
  }

  predicate HasEvent(events: seq<Event>, ep: Ep) {
    exists i :: 0 <= i < |events| && events[i].ep == ep
  }

  // The thread has popped ep off the ready list but not locked it, or has an event for it to deliver.
  predicate HasToken(pc: Pc, ep: Ep) {
    (pc.Holding? && pc.ep == ep) || HasEvent(EventsOf(pc), ep)
  }

  ghost predicate Token(s: State, ep: Ep) {
    ep in s.readyList || exists t :: 0 <= t < |s.pc| && HasToken(s.pc[t], ep)
  }

  predicate Claims(pc: Pc, ep: Ep) {
    (pc.Holding? || pc.Posting?) && pc.ep == ep
  }

  // A set ready flag is backed by a ready-list entry, or by a thread that popped or is about to push one.
  ghost predicate ReadyOk(s: State) {
    forall ep :: ep in s.ctx && s.ctx[ep].ready ==>
      ep in s.readyList || exists t :: 0 <= t < |s.pc| && Claims(s.pc[t], ep)
  }

  // Nobody is in the middle of changing ep.
  predicate Settled(s: State, ep: Ep)
    requires ep in s.ctx
  {
    var w := s.ctx[ep].owner;
    w.None? || (w.value < |s.pc| && s.pc[w.value].Leaving?)
  }

  ghost predicate NotStranded(s: State, ep: Ep, d: Dir)
    requires ep in s.ctx
  {
    QueueOf(s.ctx[ep], d) != [] && Settled(s, ep) ==> Token(s, ep) || d in Armed(s, ep)
  }

  ghost predicate ProgressOk(s: State) {
    forall ep, d :: ep in s.ctx ==> NotStranded(s, ep, d)
  }

  ghost predicate TokensKnown(s: State) {
    && (forall t, ep :: 0 <= t < |s.pc| && HasToken(s.pc[t], ep) ==> ep in s.ctx)
    && (forall ep :: ep in s.readyList ==> ep in s.ctx)
  }

  ghost predicate Inv(s: State) {
    LocksOk(s) && QueuesOk(s) && AccountingOk(s) && ReadyOk(s) && ProgressOk(s) && TokensKnown(s)
  }

  // ----- The shape of a step: one thread moves, at most one context changes -----

  // The endpoint whose lock the thread holds or takes in this step.
  function Focus(s: State, t: Tid, a: Action): Option<Ep>
    requires Enabled(s, t, a)
  {
    match a
    case Acquire => Some(s.pc[t].ep)
    case Handle => Some(s.pc[t].events[0].ep)
    case Submit(_, ep) => Some(ep)
    case _ => LockedEp(s.pc[t])
  }

  ghost predicate OneThreadMoves(s: State, r: State, t: Tid) {
    t < |s.pc| == |r.pc| && forall u :: 0 <= u < |s.pc| && u != t ==> r.pc[u] == s.pc[u]
  }

  ghost predicate OneContextChanges(s: State, r: State, focus: Option<Ep>) {
    && (forall ep :: ep in s.ctx ==> ep in r.ctx)
    && (forall ep :: ep in s.ctx && focus != Some(ep) ==> r.ctx[ep] == s.ctx[ep])
    && (forall ep :: ep in r.ctx && ep !in s.ctx ==> r.ctx[ep] == Ctx([], [], false, None))
  }

  // The mover's lock before and after, against the owner field of its focus.
  predicate LockMoves(s: State, r: State, t: Tid, focus: Option<Ep>)
    requires t < |s.pc| == |r.pc|
  {
    && (LockedEp(s.pc[t]).Some? ==> LockedEp(s.pc[t]) == focus)
    && (LockedEp(r.pc[t]).Some? ==> LockedEp(r.pc[t]) == focus)
    && (focus.Some? ==>
          && focus.value in s.ctx && focus.value in r.ctx
          && (LockedEp(s.pc[t]).None? ==> s.ctx[focus.value].owner == None)
          && (LockedEp(s.pc[t]).Some? && LockedEp(r.pc[t]).Some? ==>
                r.ctx[focus.value].owner == s.ctx[focus.value].owner)
          && (LockedEp(s.pc[t]).None? && LockedEp(r.pc[t]).Some? ==> r.ctx[focus.value].owner == Some(t))
          && (LockedEp(r.pc[t]).None? ==> r.ctx[focus.value].owner == None))
  }

  lemma StepThread(s: State, t: Tid, a: Action)
    requires Enabled(s, t, a)
    ensures OneThreadMoves(s, NextState(s, t, a), t)
  {
    hide PerformResult, Reportable, Disarm, Nonempty, Report;
  }

  lemma StepContextServing(s: State, t: Tid, a: Action)
    requires Enabled(s, t, a) && ServesQueue(a)
    ensures OneContextChanges(s, NextState(s, t, a), Focus(s, t, a))
  {
    hide PerformResult, Reportable, Disarm, Nonempty, Report;
  }

  lemma StepContextQueueing(s: State, t: Tid, a: Action)
    requires Enabled(s, t, a) && QueuesOrFlushes(a)
    ensures OneContextChanges(s, NextState(s, t, a), Focus(s, t, a))
  {
    hide PerformResult, Reportable, Disarm, Nonempty, Report;
  }

  lemma StepContextElse(s: State, t: Tid, a: Action)
    requires Enabled(s, t, a) && !ServesQueue(a) && !QueuesOrFlushes(a)
    ensures OneContextChanges(s, NextState(s, t, a), Focus(s, t, a))
  {
    hide PerformResult, Reportable, Disarm, Nonempty, Report;
  }

  lemma StepMoves(s: State, t: Tid, a: Action)
    requires Enabled(s, t, a)
    ensures OneThreadMoves(s, NextState(s, t, a), t)
    ensures OneContextChanges(s, NextState(s, t, a), Focus(s, t, a))
  {
    hide Enabled, NextState, Focus, OneThreadMoves, OneContextChanges;
    StepThread(s, t, a);
    if ServesQueue(a) {
      StepContextServing(s, t, a);
    } else if QueuesOrFlushes(a) {
      StepContextQueueing(s, t, a);
    } else {
      StepContextElse(s, t, a);
    }
  }

  lemma StepLockServing(s: State, t: Tid, a: Action)
    requires Enabled(s, t, a) && ServesQueue(a)
    ensures t < |s.pc| == |NextState(s, t, a).pc|
    ensures LockMoves(s, NextState(s, t, a), t, Focus(s, t, a))
  {
    hide PerformResult, Reportable, Disarm, Nonempty, Report;
  }

  lemma StepLockSubmitting(s: State, t: Tid, a: Action)
    requires Enabled(s, t, a) && (a.Submit? || a.Append?)
    ensures t < |s.pc| == |NextState(s, t, a).pc|
    ensures LockMoves(s, NextState(s, t, a), t, Focus(s, t, a))
  {
    hide NextState, PerformResult, Reportable, Disarm, Nonempty, Report;
    match a {
      case Submit(iotype, ep) => MakesSubmit(s, t, iotype, ep);
      case Append => MakesAppend(s, t, s.pc[t].op);
    }
  }

  lemma StepLockPosting(s: State, t: Tid, a: Action)
    requires Enabled(s, t, a) && (a.Check? || a.Post?)
    ensures t < |s.pc| == |NextState(s, t, a).pc|
    ensures LockMoves(s, NextState(s, t, a), t, Focus(s, t, a))
  {
    hide NextState, PerformResult, Reportable, Disarm, Nonempty, Report;
    match a {
      case Check => MakesCheck(s, t, s.pc[t].ep);
      case Post => MakesPost(s, t, s.pc[t].ep, s.pc[t].next);
    }
  }

  lemma StepLockQueueing(s: State, t: Tid, a: Action)
    requires Enabled(s, t, a) && QueuesOrFlushes(a)
    ensures t < |s.pc| == |NextState(s, t, a).pc|
    ensures LockMoves(s, NextState(s, t, a), t, Focus(s, t, a))
  {
    hide NextState, PerformResult, Reportable, Disarm, Nonempty, Report;
    match a {
      case Flush => MakesFlush(s, t, s.pc[t].ep, s.pc[t].done, s.pc[t].rest);
      case FlushDone => MakesFlushDone(s, t, s.pc[t].ep, s.pc[t].done, s.pc[t].rest);
      case Release => MakesRelease(s, t, s.pc[t].ep, s.pc[t].next);
      case Check => StepLockPosting(s, t, a);
      case Post => StepLockPosting(s, t, a);
      case _ => StepLockSubmitting(s, t, a);
    }
  }

  lemma StepLockElse(s: State, t: Tid, a: Action)
    requires Enabled(s, t, a) && !ServesQueue(a) && !QueuesOrFlushes(a)
    ensures t < |s.pc| == |NextState(s, t, a).pc|
    ensures LockMoves(s, NextState(s, t, a), t, Focus(s, t, a))
  {
    hide PerformResult, Reportable, Disarm, Nonempty, Report;
  }

  lemma StepLock(s: State, t: Tid, a: Action)
    requires Enabled(s, t, a)
    ensures t < |s.pc| == |NextState(s, t, a).pc|
    ensures LockMoves(s, NextState(s, t, a), t, Focus(s, t, a))
  {
    hide Enabled, NextState, Focus, LockMoves;
    if ServesQueue(a) {
      StepLockServing(s, t, a);
    } else if QueuesOrFlushes(a) {
      StepLockQueueing(s, t, a);
    } else {
      StepLockElse(s, t, a);
    }
  }

  // ----- Preservation: locks, queues, known endpoints -----

  lemma LocksStep(s: State, t: Tid, a: Action)
    requires LocksOk(s) && Enabled(s, t, a)
    ensures LocksOk(NextState(s, t, a))
  {
    hide NextState, Enabled, Focus;
    StepMoves(s, t, a);
    StepLock(s, t, a);
  }

  // The queues and progress of the mover's focus, before and after.
  ghost predicate FocusFits(s: State, t: Tid, ep: Ep) {
    && t < |s.pc| && ep in s.ctx
    && QueueOk(s.ctx[ep], ep)
    && (LockedEp(s.pc[t]) == Some(ep) ==> PcFits(s.pc[t], s.ctx[ep]))
  }

  predicate QueuesOrFlushes(a: Action) {
    a.Flush? || a.FlushDone? || a.Submit? || a.Append? || a.Check? || a.Post? || a.Release?
  }

  predicate ServesQueue(a: Action) {
    a.Read? || a.ReadPop? || a.ReadDone? || a.Write? || a.WritePop? || a.WriteDone?
  }

  lemma FocusServed(s: State, t: Tid, a: Action)
    requires Enabled(s, t, a) && ServesQueue(a) && FocusFits(s, t, s.pc[t].ep)
    ensures FocusFits(NextState(s, t, a), t, s.pc[t].ep)
  {
  }

  lemma FocusNotServed(s: State, t: Tid, a: Action)
    requires Enabled(s, t, a) && !ServesQueue(a) && Focus(s, t, a).Some? && FocusFits(s, t, Focus(s, t, a).value)
    ensures FocusFits(NextState(s, t, a), t, Focus(s, t, a).value)
  {
  }

  lemma QueuesStep(s: State, t: Tid, a: Action)
    requires LocksOk(s) && QueuesOk(s) && Enabled(s, t, a)
    ensures QueuesOk(NextState(s, t, a))
  {
    hide NextState, Enabled, PcFits;
    StepMoves(s, t, a);
    StepLock(s, t, a);
    if ServesQueue(a) {
      ServingFocus(s, t, a);
      FocusServed(s, t, a);
    } else if Focus(s, t, a).Some? {
      FocusNotServed(s, t, a);
    }
  }

  lemma ServingFocus(s: State, t: Tid, a: Action)
    requires Enabled(s, t, a) && ServesQueue(a)
    ensures !s.pc[t].Idle? && !s.pc[t].AtReadyList? && !s.pc[t].AtWait? && !s.pc[t].Handling? && !s.pc[t].Appending?
    ensures Focus(s, t, a) == LockedEp(s.pc[t]) == Some(s.pc[t].ep)
  {
  }

  // ----- Preservation: readiness -----

  lemma HasEventTail(events: seq<Event>, ep: Ep)
    requires events != []
    ensures HasEvent(events, ep) <==> events[0].ep == ep || HasEvent(events[1..], ep)
  {
    if i :| 0 <= i < |events| && events[i].ep == ep {
      if i > 0 {
        assert events[1..][i - 1].ep == ep;
      }
    }
    if i :| 0 <= i < |events[1..]| && events[1..][i].ep == ep {
      assert events[i + 1].ep == ep;
    }
  }

  function EventsAfter(s: State, t: Tid, a: Action): seq<Event>
    requires Enabled(s, t, a)
  {
    if a.Handle? then s.pc[t].events[1..] else if a.Wait? then a.events else EventsOf(s.pc[t])
  }

  lemma StepEventsServing(s: State, t: Tid, a: Action)
    requires Enabled(s, t, a) && ServesQueue(a)
    ensures t < |NextState(s, t, a).pc| && EventsOf(NextState(s, t, a).pc[t]) == EventsAfter(s, t, a)
  {
    hide PerformResult, Reportable, Disarm, Nonempty, Report;
  }

  lemma StepEventsQueueing(s: State, t: Tid, a: Action)
    requires Enabled(s, t, a) && QueuesOrFlushes(a)
    ensures t < |NextState(s, t, a).pc| && EventsOf(NextState(s, t, a).pc[t]) == EventsAfter(s, t, a)
  {
    hide PerformResult, Reportable, Disarm, Nonempty, Report;
  }

  lemma StepEventsElse(s: State, t: Tid, a: Action)
    requires Enabled(s, t, a) && !ServesQueue(a) && !QueuesOrFlushes(a)
    ensures t < |NextState(s, t, a).pc| && EventsOf(NextState(s, t, a).pc[t]) == EventsAfter(s, t, a)
  {
    hide PerformResult, Reportable, Disarm, Nonempty, Report;
  }

  lemma StepEvents(s: State, t: Tid, a: Action)
    requires Enabled(s, t, a)
    ensures t < |NextState(s, t, a).pc|
    ensures EventsOf(NextState(s, t, a).pc[t])
      == if a.Handle? then s.pc[t].events[1..] else if a.Wait? then a.events else EventsOf(s.pc[t])
  {
    hide Enabled, NextState, EventsOf, ServesQueue, QueuesOrFlushes;
    if ServesQueue(a) {
      StepEventsServing(s, t, a);
    } else if QueuesOrFlushes(a) {
      StepEventsQueueing(s, t, a);
    } else {
      StepEventsElse(s, t, a);
    }
  }

  lemma StepHolding(s: State, t: Tid, a: Action, ep: Ep)
    requires Enabled(s, t, a)
    ensures var r := NextState(s, t, a);
      var before := s.pc[t].Holding? && s.pc[t].ep == ep;
      && t < |r.pc|
      && (r.pc[t].Holding? && r.pc[t].ep == ep <==>
            (before && !a.Acquire?) || (a.PopReady? && s.readyList != [] && s.readyList[0] == ep))
      && (before && a.Acquire? ==> Focus(s, t, a) == Some(ep))
  {
    hide PerformResult, Reportable, Disarm, Nonempty, Report;
  }

  lemma StepReadyList(s: State, t: Tid, a: Action, ep: Ep)
    requires Enabled(s, t, a)
    ensures var r := NextState(s, t, a);
      && t < |r.pc|
      && (ep in s.readyList ==> ep in r.readyList || (r.pc[t].Holding? && r.pc[t].ep == ep))
      && (ep in r.readyList ==> ep in s.readyList || Focus(s, t, a) == Some(ep))
  {
    hide PerformResult, Reportable, Disarm, Nonempty, Report;
    if s.readyList != [] {
      assert s.readyList == [s.readyList[0]] + s.readyList[1..];
    }
  }

  // A step loses the mover's token for ep only by taking ep's lock, and takes a ready-list entry only by holding it.
  lemma StepTokens(s: State, t: Tid, a: Action, ep: Ep)
    requires Enabled(s, t, a)
    ensures var r := NextState(s, t, a);
      && t < |r.pc|
      && (HasToken(s.pc[t], ep) ==> HasToken(r.pc[t], ep) || ((a.Acquire? || a.Handle?) && Focus(s, t, a) == Some(ep)))
      && (ep in s.readyList ==> ep in r.readyList || Claims(r.pc[t], ep))
      && (ep in s.readyList ==> ep in r.readyList || HasToken(r.pc[t], ep))
      && (ep in r.readyList ==> ep in s.readyList || Focus(s, t, a) == Some(ep))
      && (HasToken(r.pc[t], ep) ==> HasToken(s.pc[t], ep) || ep in s.readyList || ep in s.ctx)
  {
    hide NextState, HasEvent;
    StepEvents(s, t, a);
    StepHolding(s, t, a, ep);
    StepReadyList(s, t, a, ep);
    if a.Handle? {
      HasEventTail(s.pc[t].events, ep);
    } else if a.Wait? {
      WaitEvents(s, t, a.events, ep);
    }
  }

  lemma WaitEvents(s: State, t: Tid, events: seq<Event>, ep: Ep)
    requires Enabled(s, t, Wait(events))
    ensures !HasEvent(EventsOf(s.pc[t]), ep)
    ensures HasEvent(events, ep) ==> ep in s.ctx
  {
  }

  lemma StepArmed(s: State, t: Tid, a: Action, ep: Ep, d: Dir)
    requires Enabled(s, t, a) && d in Armed(s, ep)
    ensures var r := NextState(s, t, a);
      t < |r.pc| && (d in Armed(r, ep) || HasToken(r.pc[t], ep) || (a.Rearm? && Focus(s, t, a) == Some(ep)))
  {
    hide PerformResult, Report;
  }

  lemma TokensStep(s: State, t: Tid, a: Action)
    requires LocksOk(s) && TokensKnown(s) && Enabled(s, t, a)
    ensures TokensKnown(NextState(s, t, a))
  {
    hide NextState, Enabled, Focus, HasToken;
    StepMoves(s, t, a);
    StepLock(s, t, a);
    var r := NextState(s, t, a);
    forall u, ep | 0 <= u < |r.pc| && HasToken(r.pc[u], ep) ensures ep in r.ctx {
      StepTokens(s, t, a, ep);
    }
    forall ep | ep in r.readyList ensures ep in r.ctx {
      StepTokens(s, t, a, ep);
    }
  }

  // Only the mover sets its focus ready, and then it is about to push it.
  lemma StepReady(s: State, t: Tid, a: Action, ep: Ep)
    requires Enabled(s, t, a) && ep in s.ctx && ep in NextState(s, t, a).ctx
    requires NextState(s, t, a).ctx[ep].ready
    ensures var r := NextState(s, t, a);
      && t < |r.pc|
      && (s.ctx[ep].ready || Claims(r.pc[t], ep))
      && (Claims(s.pc[t], ep) ==> Claims(r.pc[t], ep) || ep in r.readyList)
  {
    hide PerformResult, Reportable, Disarm, Nonempty, Report;
  }

  lemma ReadyStep(s: State, t: Tid, a: Action)
    requires LocksOk(s) && ReadyOk(s) && Enabled(s, t, a)
    ensures ReadyOk(NextState(s, t, a))
  {
    hide NextState, Enabled, Focus, Claims, HasToken, LockMoves;
    StepMoves(s, t, a);
    var r := NextState(s, t, a);
    forall ep | ep in r.ctx && r.ctx[ep].ready
      ensures ep in r.readyList || exists u :: 0 <= u < |r.pc| && Claims(r.pc[u], ep)
    {
      if ep in s.ctx {
        StepReady(s, t, a, ep);
        StepTokens(s, t, a, ep);
        if s.ctx[ep].ready && ep !in s.readyList {
          var u :| 0 <= u < |s.pc| && Claims(s.pc[u], ep);
          assert u != t ==> Claims(r.pc[u], ep);
        }
      }
    }
  }

  // A token of some thread survives the step of t unless t uses it up to lock ep.
  lemma TokenSurvives(s: State, t: Tid, a: Action, ep: Ep)
    requires Enabled(s, t, a) && Token(s, ep)
    requires !((a.Acquire? || a.Handle?) && Focus(s, t, a) == Some(ep))
    ensures Token(NextState(s, t, a), ep)
  {
    hide NextState, Enabled, Focus, HasToken;
    StepMoves(s, t, a);
    StepTokens(s, t, a, ep);
    var r := NextState(s, t, a);
    if ep !in s.readyList {
      var u :| 0 <= u < |s.pc| && HasToken(s.pc[u], ep);
      assert HasToken(r.pc[u], ep);
    } else if ep !in r.readyList {
      assert HasToken(r.pc[t], ep);
    }
  }

  lemma ProgressElsewhere(s: State, t: Tid, a: Action, ep: Ep, d: Dir)
    requires LocksOk(s) && Enabled(s, t, a) && Focus(s, t, a) != Some(ep)
    requires ep in s.ctx && ep in NextState(s, t, a).ctx && NotStranded(s, ep, d)
    ensures NotStranded(NextState(s, t, a), ep, d)
  {
    hide NextState, Enabled, Focus, Token, HasToken;
    StepMoves(s, t, a);
    StepLock(s, t, a);
    var r := NextState(s, t, a);
    if QueueOf(r.ctx[ep], d) != [] && Settled(r, ep) {
      if Token(s, ep) {
        TokenSurvives(s, t, a, ep);
      } else {
        StepArmed(s, t, a, ep, d);
        if HasToken(r.pc[t], ep) {
          TokenHolder(r, t, ep);
        }
      }
    }
  }

  lemma TokenHolder(s: State, t: Tid, ep: Ep)
    requires t < |s.pc| && HasToken(s.pc[t], ep)
    ensures Token(s, ep)
  {
  }

  // The mover leaves its focus settled only by rearming it, emptying it, posting it or finding it claimed.
  lemma ProgressAtFocus(s: State, t: Tid, a: Action, d: Dir)
    requires LocksOk(s) && QueuesOk(s) && ReadyOk(s) && Enabled(s, t, a) && Focus(s, t, a).Some?
    requires var ep := Focus(s, t, a).value;
      ep in s.ctx && ep in NextState(s, t, a).ctx && NotStranded(s, ep, d)
    ensures NotStranded(NextState(s, t, a), Focus(s, t, a).value, d)
  {
    var ep := Focus(s, t, a).value;
    if a.Release? {
      ProgressOnRelease(s, t, d);
    } else if a.Check? {
      ProgressOnCheck(s, t, d);
    } else {
      StepSettles(s, t, a, d);
    }
  }

  lemma StepSettles(s: State, t: Tid, a: Action, d: Dir)
    requires LocksOk(s) && Enabled(s, t, a) && Focus(s, t, a).Some? && !a.Release? && !a.Check?
    requires var ep := Focus(s, t, a).value;
      ep in s.ctx && ep in NextState(s, t, a).ctx
    ensures NotStranded(NextState(s, t, a), Focus(s, t, a).value, d)
  {
    StepLock(s, t, a);
  }

  lemma ProgressOnRelease(s: State, t: Tid, d: Dir)
    requires LocksOk(s) && Enabled(s, t, Release) && NotStranded(s, s.pc[t].ep, d)
    ensures NotStranded(NextState(s, t, Release), s.pc[t].ep, d)
  {
    var ep := s.pc[t].ep;
    if Token(s, ep) {
      TokenSurvives(s, t, Release, ep);
    }
  }

  lemma ProgressOnCheck(s: State, t: Tid, d: Dir)
    requires LocksOk(s) && ReadyOk(s) && Enabled(s, t, Check)
    ensures NotStranded(NextState(s, t, Check), s.pc[t].ep, d)
  {
    var ep := s.pc[t].ep;
    var r := NextState(s, t, Check);
    if s.ctx[ep].ready && ep !in s.readyList {
      var u :| 0 <= u < |s.pc| && Claims(s.pc[u], ep);
      assert u != t && LockedEp(s.pc[u]) != Some(ep);
      assert HasToken(s.pc[u], ep);
      TokenSurvives(s, t, Check, ep);
    }
  }

  lemma ProgressStep(s: State, t: Tid, a: Action)
    requires LocksOk(s) && QueuesOk(s) && ReadyOk(s) && ProgressOk(s) && Enabled(s, t, a)
    ensures ProgressOk(NextState(s, t, a))
  {
    hide NextState, Enabled, Focus, Settled, NotStranded;
    StepMoves(s, t, a);
    StepLock(s, t, a);
    var r := NextState(s, t, a);
    forall ep, d | ep in r.ctx ensures NotStranded(r, ep, d) {
      if ep !in s.ctx {
        NewContextNotStranded(r, ep, d);
      } else if Focus(s, t, a) == Some(ep) {
        ProgressAtFocus(s, t, a, d);
      } else {
        ProgressElsewhere(s, t, a, ep, d);
      }
    }
  }

  lemma NewContextNotStranded(s: State, ep: Ep, d: Dir)
    requires ep in s.ctx && s.ctx[ep] == Ctx([], [], false, None)
    ensures NotStranded(s, ep, d)
  {
  }

  // ----- Preservation: accounting -----

  lemma {:induction false} StampsAppend(p: seq<Overlapped>, q: seq<Overlapped>, ep: Ep, d: Dir)
    ensures Stamps(p + q, ep, d) == Stamps(p, ep, d) + Stamps(q, ep, d)
  {
    hide StampIf;
    if p == [] {
      assert p + q == q;
    } else {
      assert (p + q)[1..] == p[1..] + q;
      StampsAppend(p[1..], q, ep, d);
      var h, a, b := StampIf(p[0], ep, d), Stamps(p[1..], ep, d), Stamps(q, ep, d);
      assert h + (a + b) == h + a + b;
    }
  }

  // Only the id, the kind and the endpoint of an operation matter for the accounts.
  predicate SameOperation(o: Overlapped, r: Overlapped) {
    o.id == r.id && o.iotype == r.iotype && o.ep == r.ep
  }

  lemma StampsOne(o: Overlapped, r: Overlapped, ep: Ep, d: Dir)
    requires SameOperation(o, r)
    ensures Stamps([o], ep, d) == Stamps([r], ep, d) == if Belongs(o, ep, d) then [StampOf(o)] else []
  {
    assert [o][1..] == [] && [r][1..] == [];
  }

  lemma PostForeign(completion: seq<Overlapped>, r: Overlapped, ep: Ep, d: Dir)
    requires !Belongs(r, ep, d)
    ensures Stamps(completion + [r], ep, d) == Stamps(completion, ep, d)
  {
    StampsAppend(completion, [r], ep, d);
    StampsOne(r, r, ep, d);
  }

  // The operation a step moves onto the completion list, if any.
  function PostedBy(s: State, t: Tid, a: Action): Option<Overlapped>
    requires Enabled(s, t, a)
  {
    match a
    case Read(r, completed) => if completed then Some(r) else None
    case Write(r, completed) => if completed then Some(r) else None
    case Flush =>
      Some((s.ctx[s.pc[t].ep].rd + s.ctx[s.pc[t].ep].wr)[s.pc[t].done].(errorcode := ECONNABORTED))
    case _ => None
  }

  // The shared lists change in three ways only: a pop, a completion, a submission.
  lemma StepLists(s: State, t: Tid, a: Action)
    requires Enabled(s, t, a)
    ensures var r := NextState(s, t, a);
      if a.PopCompleted? && s.completion != [] then
        r.popped == s.popped + [s.completion[0]] && r.completion == s.completion[1..] && r.submitted == s.submitted
      else if a.Append? then
        r.popped == s.popped && r.completion == s.completion
        && r.submitted == s.submitted + [s.pc[t].op.(id := |s.submitted|)]
      else
        r.popped == s.popped && r.submitted == s.submitted
        && r.completion == s.completion + (if PostedBy(s, t, a).Some? then [PostedBy(s, t, a).value] else [])
  {
    hide PerformResult, Reportable, Disarm, Nonempty, Report;
  }

  // Away from the mover's focus nothing is pending that was not, and nothing of it is posted.
  lemma PendingElsewhere(s: State, t: Tid, a: Action, ep: Ep, d: Dir)
    requires LocksOk(s) && Enabled(s, t, a) && Focus(s, t, a) != Some(ep)
    ensures Pending(NextState(s, t, a), ep, d) == Pending(s, ep, d)
  {
    hide NextState, Enabled, Focus, Posted;
    StepMoves(s, t, a);
    StepLock(s, t, a);
  }

  lemma PostedAtFocus(s: State, t: Tid, a: Action)
    requires QueuesOk(s) && Enabled(s, t, a) && PostedBy(s, t, a).Some?
    ensures Focus(s, t, a) == Some(PostedBy(s, t, a).value.ep)
  {
  }

  // Pops and submissions elsewhere do not disturb an account; posts belong to the focus.
  lemma AccountElsewhere(s: State, t: Tid, a: Action, ep: Ep, d: Dir)
    requires LocksOk(s) && QueuesOk(s) && Enabled(s, t, a) && Focus(s, t, a) != Some(ep) && Accounted(s, ep, d)
    ensures Accounted(NextState(s, t, a), ep, d)
  {
    hide NextState, Enabled, Focus, Pending, Stamps;
    PendingElsewhere(s, t, a, ep, d);
    StepLists(s, t, a);
    if a.PopCompleted? && s.completion != [] {
      PopOne(s.popped, s.completion, ep, d);
    } else if a.Append? {
      AppendFocus(s, t);
      PostForeign(s.submitted, s.pc[t].op.(id := |s.submitted|), ep, d);
    } else if PostedBy(s, t, a).Some? {
      PostedAtFocus(s, t, a);
      PostForeign(s.completion, PostedBy(s, t, a).value, ep, d);
    } else {
      assert s.completion + [] == s.completion;
    }
  }

  lemma AppendFocus(s: State, t: Tid)
    requires Enabled(s, t, Append)
    ensures t < |s.pc| && s.pc[t].Appending? && Focus(s, t, Append) == Some(s.pc[t].op.ep)
  {
  }

  lemma PopOne(popped: seq<Overlapped>, completion: seq<Overlapped>, ep: Ep, d: Dir)
    requires completion != []
    ensures Stamps(popped + [completion[0]], ep, d) + Stamps(completion[1..], ep, d)
      == Stamps(popped, ep, d) + Stamps(completion, ep, d)
  {
    assert completion == [completion[0]] + completion[1..];
    StampsAppend([completion[0]], completion[1..], ep, d);
    StampsAppend(popped, [completion[0]], ep, d);
  }

  // The mover's own view of its focus is the whole account of it, before and after.
  lemma FocusPending(s: State, t: Tid, a: Action, d: Dir)
    requires LocksOk(s) && Enabled(s, t, a) && Focus(s, t, a).Some?
    ensures var ep := Focus(s, t, a).value;
      var r := NextState(s, t, a);
      && ep in s.ctx && t < |s.pc| && Pending(s, ep, d) == LocalPending(s.ctx[ep], s.pc[t], d)
      && ep in r.ctx && t < |r.pc| && Pending(r, ep, d) == LocalPending(r.ctx[ep], r.pc[t], d)
  {
    hide NextState, Enabled, Focus, LocksOk, Pending, LocalPending, LockedEp;
    StepLock(s, t, a);
    LocksStep(s, t, a);
    var ep := Focus(s, t, a).value;
    if LockedEp(s.pc[t]).Some? {
      OwnLock(s, t);
    }
    if LockedEp(NextState(s, t, a).pc[t]).Some? {
      OwnLock(NextState(s, t, a), t);
    }
    OwnView(s, t, ep, d);
    OwnView(NextState(s, t, a), t, ep, d);
  }

  lemma OwnLock(s: State, t: Tid)
    requires LocksOk(s) && t < |s.pc| && LockedEp(s.pc[t]).Some?
    ensures LockedEp(s.pc[t]).value in s.ctx && s.ctx[LockedEp(s.pc[t]).value].owner == Some(t)
  {
  }

  // A thread inside, or before and after, the critical section of a context sees what is pending there.
  lemma OwnView(s: State, t: Tid, ep: Ep, d: Dir)
    requires ep in s.ctx && t < |s.pc|
    requires s.ctx[ep].owner == if LockedEp(s.pc[t]).Some? then Some(t) else None
    ensures Pending(s, ep, d) == LocalPending(s.ctx[ep], s.pc[t], d)
  {
    hide Posted, QueueOf;
    UnlockedPostsNothing(d);
  }

  lemma UnlockedPostsNothing(d: Dir)
    ensures forall pc, c :: LockedEp(pc).None? ==> Posted(pc, c, d) == 0
  {
  }

  // How the pending operations of the mover's focus change.
  ghost predicate PendingMoves(s: State, t: Tid, a: Action, d: Dir, before: seq<Overlapped>, after: seq<Overlapped>)
    requires Enabled(s, t, a) && Focus(s, t, a).Some?
  {
    var ep := Focus(s, t, a).value;
    if a.Append? && DirOf(s.pc[t].op.iotype) == d then
      after == before + [s.pc[t].op.(id := |s.submitted|)]
    else if PostedBy(s, t, a).Some? && Belongs(PostedBy(s, t, a).value, ep, d) then
      before != [] && SameOperation(before[0], PostedBy(s, t, a).value) && after == before[1..]
    else if (a.Read? && d == Rd && !a.completed) || (a.Write? && d == Wr && !a.completed) then
      before != [] && SameOperation(before[0], a.r) && after == [a.r] + before[1..]
    else
      after == before
  }

  lemma PendingRead(s: State, t: Tid, o: Overlapped, completed: bool, d: Dir)
    requires Enabled(s, t, Read(o, completed)) && FocusFits(s, t, s.pc[t].ep)
    ensures var ep := s.pc[t].ep;
      var a := Read(o, completed);
      var r := NextState(s, t, a);
      && Focus(s, t, a) == Some(ep) && ep in r.ctx && t < |r.pc|
      && PendingMoves(s, t, a, d, LocalPending(s.ctx[ep], s.pc[t], d), LocalPending(r.ctx[ep], r.pc[t], d))
  {
    hide PcFits, NextState, Enabled, PerformResult, LocalPending;
    ReadAllowed(s, t, o, completed);
    var ep := s.pc[t].ep;
    var q := s.ctx[ep].rd;
    assert Belongs(q[0], ep, Rd);
    MakesRead(s, t, ep, s.pc[t].pending, o, completed);
    var r := NextState(s, t, Read(o, completed));
    ServingPending(s.ctx[ep], s.pc[t], d);
    ServingPending(r.ctx[ep], r.pc[t], d);
    assert q[0 := o] == [o] + q[1..] && q[0 := o][1..] == q[1..];
  }

  // Only the head of a queue may be on the completion list already, and only between its two steps.
  lemma ServingPending(c: Ctx, pc: Pc, d: Dir)
    requires pc.Reading? || pc.Writing? || pc.Rearming?
      || (pc.ReadPosted? && c.rd != []) || (pc.WritePosted? && c.wr != [])
    ensures LocalPending(c, pc, d)
      == if pc.ReadPosted? && d == Rd then c.rd[1..]
         else if pc.WritePosted? && d == Wr then c.wr[1..]
         else QueueOf(c, d)
  {
    assert c.rd[0..] == c.rd && c.wr[0..] == c.wr;
  }

  lemma ReadAllowed(s: State, t: Tid, o: Overlapped, completed: bool)
    requires Enabled(s, t, Read(o, completed))
    ensures t < |s.pc| && s.pc[t].Reading? && s.pc[t].ep in s.ctx && s.ctx[s.pc[t].ep].rd != []
    ensures PerformResult(s.ctx[s.pc[t].ep].rd[0], o, completed) && SameOperation(s.ctx[s.pc[t].ep].rd[0], o)
  {
  }

  lemma PendingWrite(s: State, t: Tid, o: Overlapped, completed: bool, d: Dir)
    requires Enabled(s, t, Write(o, completed)) && FocusFits(s, t, s.pc[t].ep)
    ensures var ep := s.pc[t].ep;
      var a := Write(o, completed);
      var r := NextState(s, t, a);
      && Focus(s, t, a) == Some(ep) && ep in r.ctx && t < |r.pc|
      && PendingMoves(s, t, a, d, LocalPending(s.ctx[ep], s.pc[t], d), LocalPending(r.ctx[ep], r.pc[t], d))
  {
    hide PcFits, NextState, Enabled, PerformResult, LocalPending;
    WriteAllowed(s, t, o, completed);
    var ep := s.pc[t].ep;
    var q := s.ctx[ep].wr;
    assert Belongs(q[0], ep, Wr);
    MakesWrite(s, t, ep, s.pc[t].pending, o, completed);
    var r := NextState(s, t, Write(o, completed));
    ServingPending(s.ctx[ep], s.pc[t], d);
    ServingPending(r.ctx[ep], r.pc[t], d);
    assert q[0 := o] == [o] + q[1..] && q[0 := o][1..] == q[1..];
  }

  lemma WriteAllowed(s: State, t: Tid, o: Overlapped, completed: bool)
    requires Enabled(s, t, Write(o, completed))
    ensures t < |s.pc| && s.pc[t].Writing? && s.pc[t].ep in s.ctx && s.ctx[s.pc[t].ep].wr != []
    ensures PerformResult(s.ctx[s.pc[t].ep].wr[0], o, completed) && SameOperation(s.ctx[s.pc[t].ep].wr[0], o)
  {
  }

  lemma PendingReadPop(s: State, t: Tid, d: Dir)
    requires Enabled(s, t, ReadPop) && FocusFits(s, t, s.pc[t].ep)
    ensures var ep := s.pc[t].ep;
      var r := NextState(s, t, ReadPop);
      && Focus(s, t, ReadPop) == Some(ep) && ep in r.ctx && t < |r.pc|
      && PendingMoves(s, t, ReadPop, d, LocalPending(s.ctx[ep], s.pc[t], d), LocalPending(r.ctx[ep], r.pc[t], d))
  {
  }

  lemma PendingWritePop(s: State, t: Tid, d: Dir)
    requires Enabled(s, t, WritePop) && FocusFits(s, t, s.pc[t].ep)
    ensures var ep := s.pc[t].ep;
      var r := NextState(s, t, WritePop);
      && Focus(s, t, WritePop) == Some(ep) && ep in r.ctx && t < |r.pc|
      && PendingMoves(s, t, WritePop, d, LocalPending(s.ctx[ep], s.pc[t], d), LocalPending(r.ctx[ep], r.pc[t], d))
  {
  }

  // Pushing the next of the rd ++ wr operations takes it off the one queue it is in.
  lemma FlushLocal(c: Ctx, ep: Ep, i: nat, rest: seq<Event>, d: Dir)
    requires QueueOk(c, ep) && i < |c.rd| + |c.wr|
    ensures var o := (c.rd + c.wr)[i];
      var before, after := LocalPending(c, Flushing(ep, i, rest), d), LocalPending(c, Flushing(ep, i + 1, rest), d);
      if Belongs(o, ep, d) then before != [] && before[0] == o && after == before[1..] else after == before
  {
    hide LocalPending, Belongs, QueueOk;
    FlushPending(c, ep, i, rest, d);
    FlushPending(c, ep, i + 1, rest, d);
    FlushedBelongs(c, ep, i);
    if i < |c.rd| {
      DropHead(c.rd, i);
    } else {
      DropHead(c.wr, i - |c.rd|);
    }
  }

  // What is left of each queue after i operations of rd ++ wr have been pushed.
  lemma FlushPending(c: Ctx, ep: Ep, i: nat, rest: seq<Event>, d: Dir)
    requires i <= |c.rd| + |c.wr|
    ensures LocalPending(c, Flushing(ep, i, rest), d)
      == if d == Rd then c.rd[if i < |c.rd| then i else |c.rd|..] else c.wr[if i < |c.rd| then 0 else i - |c.rd|..]
  {
    hide Posted;
    FlushPosted(c, ep, i, rest, d);
  }

  lemma FlushPosted(c: Ctx, ep: Ep, i: nat, rest: seq<Event>, d: Dir)
    ensures Posted(Flushing(ep, i, rest), c, d)
      == if d == Rd then (if i < |c.rd| then i else |c.rd|) else (if i < |c.rd| then 0 else i - |c.rd|)
  {
  }

  lemma FlushedBelongs(c: Ctx, ep: Ep, i: nat)
    requires QueueOk(c, ep) && i < |c.rd| + |c.wr|
    ensures var o := (c.rd + c.wr)[i];
      && o == (if i < |c.rd| then c.rd[i] else c.wr[i - |c.rd|])
      && (Belongs(o, ep, Rd) <==> i < |c.rd|) && (Belongs(o, ep, Wr) <==> i >= |c.rd|)
  {
  }

  lemma DropHead<T>(q: seq<T>, n: nat)
    requires n < |q|
    ensures q[n..] != [] && q[n..][0] == q[n] && q[n..][1..] == q[n + 1..]
  {
  }

  lemma PendingFlush(s: State, t: Tid, d: Dir)
    requires Enabled(s, t, Flush) && FocusFits(s, t, s.pc[t].ep)
    ensures var ep := s.pc[t].ep;
      var r := NextState(s, t, Flush);
      && Focus(s, t, Flush) == Some(ep) && ep in r.ctx && t < |r.pc|
      && PendingMoves(s, t, Flush, d, LocalPending(s.ctx[ep], s.pc[t], d), LocalPending(r.ctx[ep], r.pc[t], d))
  {
    hide LocalPending, QueueOk, PcFits;
    FlushLocal(s.ctx[s.pc[t].ep], s.pc[t].ep, s.pc[t].done, s.pc[t].rest, d);
  }

  lemma PendingFlushDone(s: State, t: Tid, d: Dir)
    requires Enabled(s, t, FlushDone) && FocusFits(s, t, s.pc[t].ep)
    ensures var ep := s.pc[t].ep;
      var r := NextState(s, t, FlushDone);
      && Focus(s, t, FlushDone) == Some(ep) && ep in r.ctx && t < |r.pc|
      && PendingMoves(s, t, FlushDone, d, LocalPending(s.ctx[ep], s.pc[t], d), LocalPending(r.ctx[ep], r.pc[t], d))
  {
  }

  // Steps of a lock holder, or into a lock, that neither touch a queue nor have posted anything.
  predicate KeepsQueues(a: Action) {
    || a.Acquire? || a.Handle? || a.Submit? || a.Check? || a.Post? || a.Rearm? || a.Release?
    || a.ReadDone? || a.WriteDone?
  }

  lemma PendingSame(s: State, t: Tid, a: Action, d: Dir)
    requires Enabled(s, t, a) && KeepsQueues(a) && Focus(s, t, a).Some? && FocusFits(s, t, Focus(s, t, a).value)
    ensures var ep := Focus(s, t, a).value;
      var r := NextState(s, t, a);
      && ep in r.ctx && t < |r.pc|
      && PendingMoves(s, t, a, d, LocalPending(s.ctx[ep], s.pc[t], d), LocalPending(r.ctx[ep], r.pc[t], d))
  {
    hide QueueOk, PcFits, NextState, Enabled, Focus, Posted;
    NothingPostedYet(s, t, a, d);
    QueuesUntouched(s, t, a, d);
  }

  lemma NothingPostedYet(s: State, t: Tid, a: Action, d: Dir)
    requires Enabled(s, t, a) && KeepsQueues(a)
    ensures var r := NextState(s, t, a);
      && t < |s.pc| && t < |r.pc|
      && forall c :: Posted(s.pc[t], c, d) == 0 && Posted(r.pc[t], c, d) == 0
  {
  }

  lemma QueuesUntouched(s: State, t: Tid, a: Action, d: Dir)
    requires Enabled(s, t, a) && KeepsQueues(a)
    ensures Focus(s, t, a).Some?
    ensures var ep := Focus(s, t, a).value;
      var r := NextState(s, t, a);
      ep in s.ctx && ep in r.ctx && QueueOf(r.ctx[ep], d) == QueueOf(s.ctx[ep], d)
  {
  }

  lemma PendingAppended(s: State, t: Tid, a: Action, d: Dir)
    requires Enabled(s, t, a) && Focus(s, t, a).Some? && FocusFits(s, t, Focus(s, t, a).value)
    requires a.Append?
    ensures var ep := Focus(s, t, a).value;
      var r := NextState(s, t, a);
      && ep in r.ctx && t < |r.pc|
      && PendingMoves(s, t, a, d, LocalPending(s.ctx[ep], s.pc[t], d), LocalPending(r.ctx[ep], r.pc[t], d))
  {
  }

  lemma PendingAtFocus(s: State, t: Tid, a: Action, d: Dir)
    requires LocksOk(s) && QueuesOk(s) && Enabled(s, t, a) && Focus(s, t, a).Some?
    ensures var ep := Focus(s, t, a).value;
      PendingMoves(s, t, a, d, Pending(s, ep, d), Pending(NextState(s, t, a), ep, d))
  {
    hide NextState, Enabled, PendingMoves, Pending, LocalPending, Focus, QueueOk, PcFits;
    FocusPending(s, t, a, d);
    StepLock(s, t, a);
    assert FocusFits(s, t, Focus(s, t, a).value);
    FocusedActions(s, t, a);
    match a {
      case Read(o, completed) => PendingRead(s, t, o, completed, d);
      case Write(o, completed) => PendingWrite(s, t, o, completed, d);
      case ReadPop => PendingReadPop(s, t, d);
      case WritePop => PendingWritePop(s, t, d);
      case Append => PendingAppended(s, t, a, d);
      case Flush => PendingFlush(s, t, d);
      case FlushDone => PendingFlushDone(s, t, d);
      case _ => PendingSame(s, t, a, d);
    }
  }

  lemma FocusedActions(s: State, t: Tid, a: Action)
    requires Enabled(s, t, a) && Focus(s, t, a).Some?
    ensures KeepsQueues(a) || a.Read? || a.Write? || a.ReadPop? || a.WritePop? || a.Append? || a.Flush? || a.FlushDone?
    ensures ServesQueue(a) || a.Flush? || a.FlushDone? ==>
      LockedEp(s.pc[t]).Some? && !s.pc[t].Appending? && Focus(s, t, a) == Some(s.pc[t].ep)
  {
  }

  lemma AccountAtFocus(s: State, t: Tid, a: Action, d: Dir)
    requires LocksOk(s) && QueuesOk(s) && Enabled(s, t, a) && Focus(s, t, a).Some?
    requires Accounted(s, Focus(s, t, a).value, d)
    ensures Accounted(NextState(s, t, a), Focus(s, t, a).value, d)
  {
    hide NextState, Enabled, Focus, Pending, Stamps;
    var ep := Focus(s, t, a).value;
    var r := NextState(s, t, a);
    var before, after := Pending(s, ep, d), Pending(r, ep, d);
    PendingAtFocus(s, t, a, d);
    StepLists(s, t, a);
    NotPopping(s, t, a);
    if a.Append? {
      AppendFocus(s, t);
      var o := s.pc[t].op.(id := |s.submitted|);
      StampsAppend(s.submitted, [o], ep, d);
      StampsAppend(before, [o], ep, d);
      StampsOne(o, o, ep, d);
    } else if PostedBy(s, t, a).Some? {
      var o := PostedBy(s, t, a).value;
      if Belongs(o, ep, d) {
        PostFirst(s.completion, before, o, ep, d);
        var del, comp := Stamps(s.popped, ep, d), Stamps(s.completion, ep, d);
        Assoc(del, comp, Stamps(before, ep, d));
        Assoc(del, Stamps(r.completion, ep, d), Stamps(after, ep, d));
      } else {
        PostForeign(s.completion, o, ep, d);
      }
    } else {
      assert s.completion + [] == s.completion;
      if after != before {
        StampsReplaceFirst(before, after[0], ep, d);
      }
    }
  }

  lemma NotPopping(s: State, t: Tid, a: Action)
    requires Enabled(s, t, a) && Focus(s, t, a).Some?
    ensures !a.PopCompleted?
  {
  }

  lemma PostFirst(completion: seq<Overlapped>, q: seq<Overlapped>, r: Overlapped, ep: Ep, d: Dir)
    requires q != [] && SameOperation(q[0], r)
    ensures Stamps(completion, ep, d) + Stamps(q, ep, d) == Stamps(completion + [r], ep, d) + Stamps(q[1..], ep, d)
  {
    hide Stamps;
    assert q == [q[0]] + q[1..];
    StampsAppend([q[0]], q[1..], ep, d);
    StampsAppend(completion, [r], ep, d);
    StampsOne(q[0], r, ep, d);
    Assoc(Stamps(completion, ep, d), Stamps([r], ep, d), Stamps(q[1..], ep, d));
  }

  lemma Assoc<T>(a: seq<T>, b: seq<T>, c: seq<T>)
    ensures a + (b + c) == a + b + c
  {
  }

  lemma StampsReplaceFirst(q: seq<Overlapped>, r: Overlapped, ep: Ep, d: Dir)
    requires q != [] && SameOperation(q[0], r)
    ensures Stamps([r] + q[1..], ep, d) == Stamps(q, ep, d)
  {
    assert q == [q[0]] + q[1..];
    StampsAppend([q[0]], q[1..], ep, d);
    StampsAppend([r], q[1..], ep, d);
    StampsOne(q[0], r, ep, d);
  }

  lemma IdsInOrder(s: State, t: Tid, a: Action)
    requires AccountingOk(s) && Enabled(s, t, a)
    ensures var r := NextState(s, t, a);
      forall i :: 0 <= i < |r.submitted| ==> r.submitted[i].id == i
  {
    hide NextState, Enabled;
    StepLists(s, t, a);
  }

  lemma AccountingStep(s: State, t: Tid, a: Action)
    requires LocksOk(s) && QueuesOk(s) && AccountingOk(s) && Enabled(s, t, a)
    ensures AccountingOk(NextState(s, t, a))
  {
    hide NextState, Enabled, Focus, Accounted;
    IdsInOrder(s, t, a);
    forall ep: Ep, d: Dir ensures Accounted(NextState(s, t, a), ep, d) {
      if Focus(s, t, a) == Some(ep) {
        AccountAtFocus(s, t, a, d);
      } else {
        AccountElsewhere(s, t, a, ep, d);
      }
    }
  }

  // ----- The invariant -----

  lemma InitialInv(s: State)
    requires Initial(s)
    ensures Inv(s)
  {
  }

  lemma StepInv(s: State, t: Tid, a: Action)
    requires Inv(s) && Enabled(s, t, a)
    ensures Inv(NextState(s, t, a))
  {
    hide NextState, Enabled, LocksOk, QueuesOk, AccountingOk, ReadyOk, ProgressOk, TokensKnown;
    LocksStep(s, t, a);
    QueuesStep(s, t, a);
    AccountingStep(s, t, a);
    ReadyStep(s, t, a);
    ProgressStep(s, t, a);
    TokensStep(s, t, a);
  }
}
