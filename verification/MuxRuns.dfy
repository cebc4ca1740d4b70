/**
 How runs can be continued: what a lock holder or a waiting thread can do next, without any new work, so that
 every critical section and every call can be brought to its end.
 */
module MuxRuns {
  import opened Prelude
  import opened MuxModel
  import opened MuxMoves
  import opened MuxInvariant
  import opened MuxTheorems

  // after continues before without joining or submitting anything.
  ghost predicate Continues(before: seq<Move>, after: seq<Move>) {
    before <= after && forall k :: |before| <= k < |after| ==> !after[k].a.Join? && !after[k].a.Submit?
  }

  lemma ContinuesSelf(ms: seq<Move>)
    ensures Continues(ms, ms)
  {
  }

  lemma ContinuesMore(a: seq<Move>, b: seq<Move>, c: seq<Move>)
    requires Continues(a, b) && Continues(b, c)
    ensures Continues(a, c)
  {
  }

  lemma OneMore(ms: seq<Move>, s: State, t: Tid, a: Action)
    requires Reaches(ms, s) && Enabled(s, t, a) && !a.Join? && !a.Submit?
    ensures Reaches(ms + [Move(t, a)], NextState(s, t, a)) && Continues(ms, ms + [Move(t, a)])
  {
    hide Reaches, Enabled, NextState;
    ReachesMore(ms, s, t, a);
  }

  // ----- A critical section can be finished -----

  // Where a lock holder goes on after its critical section.
  function Exit(pc: Pc): Pc {
    match pc
    case Reading(_, n) => AtWait(n)
    case ReadPosted(_, n) => AtWait(n)
    case Writing(_, n) => AtWait(n)
    case WritePosted(_, n) => AtWait(n)
    case Rearming(_, n) => AtWait(n)
    case Flushing(_, _, rest) => Handling(rest)
    case Posting(_, next) => After(next)
    case Leaving(_, next) => After(next)
    case Appending(_) => Idle
    case Checking(_) => Idle
    case _ => pc
  }

  // The steps its critical section still takes when every socket call completes.
  function Weight(pc: Pc, c: Ctx): nat {
    match pc
    case Reading(_, _) => 4 + 2 * |c.rd| + 2 * |c.wr|
    case ReadPosted(_, _) => 3 + 2 * |c.rd| + 2 * |c.wr|
    case Writing(_, _) => 3 + 2 * |c.wr|
    case WritePosted(_, _) => 2 + 2 * |c.wr|
    case Rearming(_, _) => 2
    case Flushing(_, done, _) => if done <= |c.rd| + |c.wr| then 2 + |c.rd| + |c.wr| - done else 2
    case Appending(_) => 4
    case Checking(_) => 3
    case Posting(_, _) => 2
    case Leaving(_, _) => 1
    case _ => 0
  }

  // What a critical section of x by t leaves alone.
  ghost predicate Framed(s: State, r: State, t: Tid, x: Ep) {
    && t < |s.pc| == |r.pc| && (forall u :: 0 <= u < |s.pc| && u != t ==> r.pc[u] == s.pc[u])
    && EventsOf(r.pc[t]) == EventsOf(s.pc[t])
    && r.ctx.Keys == s.ctx.Keys && (forall e :: e in s.ctx && e != x ==> r.ctx[e] == s.ctx[e])
    && (forall e :: e != x ==> Armed(r, e) == Armed(s, e))
    && s.readyList <= r.readyList
    && r.popped == s.popped && r.called == s.called && s.submitted <= r.submitted
  }

  lemma FramedMore(a: State, b: State, c: State, t: Tid, x: Ep)
    requires Framed(a, b, t, x) && Framed(b, c, t, x)
    ensures Framed(a, c, t, x)
  {
  }

  predicate Serves(pc: Pc) {
    pc.Reading? || pc.ReadPosted? || pc.Writing? || pc.WritePosted? || pc.Rearming?
  }

  // The part of the context a holder is past is empty.
  predicate Clearing(pc: Pc, c: Ctx) {
    match pc
    case Reading(_, _) => true
    case ReadPosted(_, _) => c.rd != []
    case Writing(_, _) => c.rd == []
    case WritePosted(_, _) => c.rd == [] && c.wr != []
    case Rearming(_, _) => c.rd == [] && c.wr == []
    case Leaving(_, _) => c.rd == [] && c.wr == []
    case _ => false
  }

  // One step of a lock holder towards the end of its critical section.
  ghost predicate HolderMoved(s: State, r: State, t: Tid, x: Ep) {
    && t < |s.pc| == |r.pc| && x in s.ctx && x in r.ctx
    && (LockedEp(r.pc[t]) == Some(x) ==>
          && Weight(r.pc[t], r.ctx[x]) < Weight(s.pc[t], s.ctx[x])
          && Exit(r.pc[t]) == Exit(s.pc[t])
          && (Clearing(s.pc[t], s.ctx[x]) ==> Clearing(r.pc[t], r.ctx[x])))
    && (LockedEp(r.pc[t]) != Some(x) ==>
          s.pc[t].Leaving? && r.pc[t] == Exit(s.pc[t]) && r.ctx[x] == s.ctx[x].(owner := None))
    && (!s.pc[t].Appending? ==> r.submitted == s.submitted && !r.pc[t].Appending?)
    && (!s.pc[t].Appending? && !s.pc[t].Checking? ==>
          r.ctx[x].ready == s.ctx[x].ready && !r.pc[t].Checking?)
    && (Serves(s.pc[t]) ==> (Serves(r.pc[t]) || r.pc[t].Leaving?))
    && (Serves(s.pc[t]) || s.pc[t].Leaving? ==> r.readyList == s.readyList)
    && (Clearing(s.pc[t], s.ctx[x]) || !Serves(s.pc[t]) ==> r.armed == s.armed)
    && (!Serves(s.pc[t]) ==> !Serves(r.pc[t]))
  }

  lemma HolderFitsIts(s: State, t: Tid, x: Ep)
    requires LocksOk(s) && QueuesOk(s) && t < |s.pc| && LockedEp(s.pc[t]) == Some(x)
    ensures x in s.ctx && PcFits(s.pc[t], s.ctx[x])
  {
  }

  lemma ReaderStep(s: State, t: Tid, x: Ep) returns (a: Action)
    requires LocksOk(s) && QueuesOk(s) && t < |s.pc| && LockedEp(s.pc[t]) == Some(x)
    requires s.pc[t].Reading? || s.pc[t].ReadPosted?
    ensures Enabled(s, t, a) && !a.Join? && !a.Submit?
    ensures HolderMoved(s, NextState(s, t, a), t, x) && Framed(s, NextState(s, t, a), t, x)
  {
    hide NextState, Enabled, PerformResult, LocksOk, QueuesOk;
    HolderFitsIts(s, t, x);
    var c := s.ctx[x];
    var n := s.pc[t].pending;
    if s.pc[t].ReadPosted? {
      a := ReadPop;
      MakesReadPop(s, t, x, n);
    } else if c.rd == [] {
      a := ReadDone;
      MakesReadDone(s, t, x, n);
    } else {
      var o := c.rd[0].(provisioned := true, errorcode := 0);
      CanComplete(c.rd[0]);
      a := Read(o, true);
      MakesRead(s, t, x, n, o, true);
    }
  }

  lemma WriterStep(s: State, t: Tid, x: Ep) returns (a: Action)
    requires LocksOk(s) && QueuesOk(s) && t < |s.pc| && LockedEp(s.pc[t]) == Some(x)
    requires s.pc[t].Writing? || s.pc[t].WritePosted?
    ensures Enabled(s, t, a) && !a.Join? && !a.Submit?
    ensures HolderMoved(s, NextState(s, t, a), t, x) && Framed(s, NextState(s, t, a), t, x)
  {
    hide NextState, Enabled, PerformResult, LocksOk, QueuesOk;
    HolderFitsIts(s, t, x);
    var c := s.ctx[x];
    var n := s.pc[t].pending;
    if s.pc[t].WritePosted? {
      a := WritePop;
      MakesWritePop(s, t, x, n);
    } else if c.wr == [] {
      a := WriteDone;
      MakesWriteDone(s, t, x, n);
    } else {
      var o := c.wr[0].(provisioned := true, errorcode := 0);
      CanComplete(c.wr[0]);
      a := Write(o, true);
      MakesWrite(s, t, x, n, o, true);
    }
  }

  lemma FlusherStep(s: State, t: Tid, x: Ep) returns (a: Action)
    requires LocksOk(s) && QueuesOk(s) && t < |s.pc| && LockedEp(s.pc[t]) == Some(x)
    requires s.pc[t].Flushing? || s.pc[t].Rearming?
    ensures Enabled(s, t, a) && !a.Join? && !a.Submit?
    ensures HolderMoved(s, NextState(s, t, a), t, x) && Framed(s, NextState(s, t, a), t, x)
  {
    hide NextState, Enabled, PerformResult, LocksOk, QueuesOk;
    HolderFitsIts(s, t, x);
    var c := s.ctx[x];
    match s.pc[t] {
      case Rearming(_, n) =>
        a := Rearm;
        MakesRearm(s, t, x, n);
      case Flushing(_, done, rest) =>
        if done == |c.rd| + |c.wr| {
          a := FlushDone;
          MakesFlushDone(s, t, x, done, rest);
        } else {
          a := Flush;
          MakesFlush(s, t, x, done, rest);
        }
    }
  }

  lemma SubmitterStep(s: State, t: Tid, x: Ep) returns (a: Action)
    requires LocksOk(s) && QueuesOk(s) && t < |s.pc| && LockedEp(s.pc[t]) == Some(x)
    requires s.pc[t].Appending? || s.pc[t].Checking?
    ensures Enabled(s, t, a) && !a.Join? && !a.Submit?
    ensures HolderMoved(s, NextState(s, t, a), t, x) && Framed(s, NextState(s, t, a), t, x)
  {
    hide NextState, Enabled, PerformResult, LocksOk, QueuesOk;
    HolderFitsIts(s, t, x);
    match s.pc[t] {
      case Appending(op) =>
        a := Append;
        MakesAppend(s, t, op);
      case Checking(_) =>
        a := Check;
        MakesCheck(s, t, x);
    }
  }

  lemma LeaverStep(s: State, t: Tid, x: Ep) returns (a: Action)
    requires LocksOk(s) && QueuesOk(s) && t < |s.pc| && LockedEp(s.pc[t]) == Some(x)
    requires s.pc[t].Posting? || s.pc[t].Leaving?
    ensures Enabled(s, t, a) && !a.Join? && !a.Submit?
    ensures HolderMoved(s, NextState(s, t, a), t, x) && Framed(s, NextState(s, t, a), t, x)
  {
    hide NextState, Enabled, PerformResult, LocksOk, QueuesOk;
    HolderFitsIts(s, t, x);
    match s.pc[t] {
      case Posting(_, next) =>
        a := Post;
        MakesPost(s, t, x, next);
      case Leaving(_, next) =>
        a := Release;
        MakesRelease(s, t, x, next);
    }
  }

  // The holder of a lock always has a step towards giving it up.
  lemma HolderStep(s: State, t: Tid, x: Ep) returns (a: Action)
    requires LocksOk(s) && QueuesOk(s) && t < |s.pc| && LockedEp(s.pc[t]) == Some(x)
    ensures Enabled(s, t, a) && !a.Join? && !a.Submit?
    ensures HolderMoved(s, NextState(s, t, a), t, x) && Framed(s, NextState(s, t, a), t, x)
  {
    hide NextState, Enabled, LocksOk, QueuesOk, HolderMoved, Framed;
    if s.pc[t].Reading? || s.pc[t].ReadPosted? {
      a := ReaderStep(s, t, x);
    } else if s.pc[t].Writing? || s.pc[t].WritePosted? {
      a := WriterStep(s, t, x);
    } else if s.pc[t].Flushing? || s.pc[t].Rearming? {
      a := FlusherStep(s, t, x);
    } else if s.pc[t].Appending? || s.pc[t].Checking? {
      a := SubmitterStep(s, t, x);
    } else {
      a := LeaverStep(s, t, x);
    }
  }

  lemma CanComplete(o: Overlapped)
    ensures PerformResult(o, o.(provisioned := true, errorcode := 0), true)
  {
  }

  // What holds when the critical section of x by t is over.
  ghost predicate Finished(s: State, r: State, t: Tid, x: Ep) {
    && t < |s.pc| == |r.pc| && x in s.ctx && x in r.ctx
    && LockedEp(r.pc[t]) == None && r.pc[t] == Exit(s.pc[t]) && r.ctx[x].owner == None
    && (Clearing(s.pc[t], s.ctx[x]) ==> r.ctx[x].rd == [] && r.ctx[x].wr == [])
    && (Clearing(s.pc[t], s.ctx[x]) || !Serves(s.pc[t]) ==> r.armed == s.armed)
    && (!s.pc[t].Appending? ==> r.submitted == s.submitted)
    && (!s.pc[t].Appending? && !s.pc[t].Checking? ==> r.ctx[x].ready == s.ctx[x].ready)
    && (Serves(s.pc[t]) || s.pc[t].Leaving? ==> r.readyList == s.readyList)
  }

  lemma FinishedNow(s: State, r: State, t: Tid, x: Ep)
    requires HolderMoved(s, r, t, x) && LockedEp(r.pc[t]) != Some(x)
    ensures Finished(s, r, t, x)
  {
  }

  lemma FinishedLater(s: State, q: State, r: State, t: Tid, x: Ep)
    requires HolderMoved(s, q, t, x) && LockedEp(q.pc[t]) == Some(x) && Finished(q, r, t, x)
    ensures Finished(s, r, t, x)
  {
    hide Exit, Clearing;
  }

  lemma HolderInv(ms: seq<Move>, s: State)
    requires Reaches(ms, s)
    ensures LocksOk(s) && QueuesOk(s)
  {
    hide Reaches;
    ReachableInv(ms, s);
  }

  // The holder of a lock can finish its critical section alone.
  lemma {:induction false} Finish(ms: seq<Move>, s: State, t: Tid, x: Ep) returns (ms': seq<Move>, r: State)
    requires Reaches(ms, s) && t < |s.pc| && LockedEp(s.pc[t]) == Some(x)
    ensures Reaches(ms', r) && Continues(ms, ms') && Framed(s, r, t, x) && Finished(s, r, t, x)
    decreases if x in s.ctx then Weight(s.pc[t], s.ctx[x]) else 0
  {
    hide Reaches, Enabled, NextState, Continues, Framed, Finished, LocksOk, QueuesOk, Weight, Exit, Clearing;
    HolderInv(ms, s);
    var a := HolderStep(s, t, x);
    var q := NextState(s, t, a);
    OneMore(ms, s, t, a);
    var m := ms + [Move(t, a)];
    if LockedEp(q.pc[t]) == Some(x) {
      ms', r := Finish(m, q, t, x);
      ContinuesMore(ms, m, ms');
      FramedMore(s, q, r, t, x);
      FinishedLater(s, q, r, t, x);
    } else {
      ms', r := m, q;
      FinishedNow(s, r, t, x);
    }
  }

  // ----- All locks can be released -----

  // What releasing the locks of some threads leaves alone: threads without one, and endpoints nobody holds.
  ghost predicate Settles(s: State, r: State) {
    && |s.pc| == |r.pc|
    && (forall u :: 0 <= u < |s.pc| ==>
          EventsOf(r.pc[u]) == EventsOf(s.pc[u]) && (LockedEp(s.pc[u]) == None ==> r.pc[u] == s.pc[u]))
    && r.ctx.Keys == s.ctx.Keys
    && (forall e :: Free(s, e) ==> Free(r, e) && r.ctx[e] == s.ctx[e] && Armed(r, e) == Armed(s, e))
    && s.readyList <= r.readyList
    && r.popped == s.popped && r.called == s.called && s.submitted <= r.submitted
  }

  lemma SettlesMore(a: State, b: State, c: State)
    requires Settles(a, b) && Settles(b, c)
    ensures Settles(a, c)
  {
  }

  lemma FinishSettles(s: State, r: State, t: Tid, x: Ep)
    requires Framed(s, r, t, x) && Finished(s, r, t, x) && LockedEp(s.pc[t]) == Some(x) && LocksOk(s)
    ensures Settles(s, r)
  {
  }

  lemma {:induction false} ReleaseAll(ms: seq<Move>, s: State, n: nat) returns (ms': seq<Move>, r: State)
    requires Reaches(ms, s) && n <= |s.pc|
    ensures Reaches(ms', r) && Continues(ms, ms') && Settles(s, r)
    ensures forall u :: 0 <= u < n ==> LockedEp(r.pc[u]) == None
  {
    hide Reaches, Continues, Framed, Finished, LocksOk;
    if n == 0 {
      ms', r := ms, s;
      ContinuesSelf(ms);
    } else {
      var m, q := ReleaseAll(ms, s, n - 1);
      if LockedEp(q.pc[n - 1]).Some? {
        var x := LockedEp(q.pc[n - 1]).value;
        ms', r := Finish(m, q, n - 1, x);
        HolderInv(m, q);
        FinishSettles(q, r, n - 1, x);
        FinishedUnlocked(q, r, n - 1, x);
        ContinuesMore(ms, m, ms');
        SettlesMore(s, q, r);
      } else {
        ms', r := m, q;
      }
    }
  }

  lemma FinishedUnlocked(s: State, r: State, t: Tid, x: Ep)
    requires Finished(s, r, t, x)
    ensures t < |r.pc| && LockedEp(r.pc[t]) == None
  {
  }

  lemma NobodyLocks(ms: seq<Move>, s: State)
    requires Reaches(ms, s) && forall u :: 0 <= u < |s.pc| ==> LockedEp(s.pc[u]) == None
    ensures Unlocked(s.ctx)
  {
    hide Reaches;
    HolderInv(ms, s);
  }

  // ----- With all locks free -----

  // Nobody is in a critical section.
  ghost predicate Open(s: State) {
    Unlocked(s.ctx) && forall u :: 0 <= u < |s.pc| ==> LockedEp(s.pc[u]) == None
  }

  // Nothing but the thread's position, the contexts, the lists of work and the arming changes.
  ghost predicate SameTraffic(s: State, r: State) {
    r.popped == s.popped && r.called == s.called && r.submitted == s.submitted && |r.pc| == |s.pc|
  }

  // A thread that holds a ready-list entry serves its endpoint until nothing is queued there.
  lemma Serve(ms: seq<Move>, s: State, t: Tid, x: Ep, n: nat) returns (ms': seq<Move>, r: State)
    requires Reaches(ms, s) && Open(s) && t < |s.pc| && s.pc[t] == Holding(x, n)
    ensures Reaches(ms', r) && Continues(ms, ms') && SameTraffic(s, r) && Open(r)
    ensures r.pc == s.pc[t := AtWait(n)] && r.readyList == s.readyList && r.armed == s.armed
    ensures x in s.ctx && r.ctx == s.ctx[x := Ctx([], [], false, None)]
  {
    hide Reaches, Enabled, NextState, Continues;
    KnownEndpoints(ms, s);
    assert HasToken(s.pc[t], x);
    MakesAcquire(s, t, x, n);
    var q := NextState(s, t, Acquire);
    OneMore(ms, s, t, Acquire);
    var m := ms + [Move(t, Acquire)];
    ms', r := Finish(m, q, t, x);
    ContinuesMore(ms, m, ms');
    assert Clearing(q.pc[t], q.ctx[x]);
    assert r.ctx[x] == Ctx([], [], false, None);
    assert r.ctx == s.ctx[x := Ctx([], [], false, None)];
  }

  lemma KnownEndpoints(ms: seq<Move>, s: State)
    requires Reaches(ms, s)
    ensures TokensKnown(s)
  {
    hide Reaches;
    ReachableInv(ms, s);
  }

  // What handling some events of t leaves alone.
  ghost predicate Handles(s: State, r: State, t: Tid, xs: set<Ep>) {
    && SameTraffic(s, r) && t < |s.pc| && r.pc == s.pc[t := r.pc[t]]
    && r.ctx.Keys == s.ctx.Keys && (forall e :: e in s.ctx && e !in xs ==> r.ctx[e] == s.ctx[e])
    && r.armed == s.armed && s.readyList <= r.readyList && Open(r)
  }

  // A thread with events handles the first of them.
  lemma HandleOne(ms: seq<Move>, s: State, t: Tid, events: seq<Event>) returns (ms': seq<Move>, r: State)
    requires Reaches(ms, s) && Open(s) && t < |s.pc| && s.pc[t] == Handling(events) && events != []
    ensures Reaches(ms', r) && Continues(ms, ms') && Handles(s, r, t, {events[0].ep})
    ensures r.pc[t] == Handling(events[1..])
  {
    hide Reaches, Enabled, NextState, Continues, Framed, Finished, Handles;
    KnownEndpoints(ms, s);
    var x := events[0].ep;
    assert HasEvent(events, x) && HasToken(s.pc[t], x);
    MakesHandle(s, t, events);
    var q := NextState(s, t, Handle);
    OneMore(ms, s, t, Handle);
    var m := ms + [Move(t, Handle)];
    ms', r := Finish(m, q, t, x);
    ContinuesMore(ms, m, ms');
    EventHandled(s, q, r, t, x, events);
  }

  lemma EventHandled(s: State, q: State, r: State, t: Tid, x: Ep, events: seq<Event>)
    requires Open(s) && t < |s.pc| && s.pc[t] == Handling(events) && events != [] && events[0].ep == x && x in s.ctx
    requires SameTraffic(s, q) && q.readyList == s.readyList && q.armed == s.armed
    requires |q.pc| == |s.pc| && q.pc == s.pc[t := q.pc[t]] && x in q.ctx && q.ctx == s.ctx[x := q.ctx[x]]
    requires q.pc[t] == if events[0].err then Flushing(x, 0, events[1..]) else Posting(x, ToEvents(events[1..]))
    requires Framed(q, r, t, x) && Finished(q, r, t, x)
    ensures Handles(s, r, t, {x}) && r.pc[t] == Handling(events[1..])
  {
  }

  // A thread with events handles all of them and goes idle.
  lemma {:induction false} HandleAll(ms: seq<Move>, s: State, t: Tid, events: seq<Event>)
    returns (ms': seq<Move>, r: State)
    requires Reaches(ms, s) && Open(s) && t < |s.pc| && s.pc[t] == Handling(events)
    ensures Reaches(ms', r) && Continues(ms, ms') && Handles(s, r, t, set e <- events :: e.ep)
    ensures r.pc[t] == Idle
    decreases |events|
  {
    hide Reaches, Enabled, NextState, Continues;
    if events == [] {
      MakesHandleDone(s, t);
      OneMore(ms, s, t, HandleDone);
      ms', r := ms + [Move(t, HandleDone)], NextState(s, t, HandleDone);
    } else {
      var m, q := HandleOne(ms, s, t, events);
      ms', r := HandleAll(m, q, t, events[1..]);
      ContinuesMore(ms, m, ms');
      assert events[0] in events;
    }
  }

  // A thread that is done serving goes idle without taking any event.
  lemma StopWaiting(ms: seq<Move>, s: State, t: Tid, n: nat) returns (ms': seq<Move>, r: State)
    requires Reaches(ms, s) && t < |s.pc| && s.pc[t] == AtWait(n)
    ensures Reaches(ms', r) && Continues(ms, ms') && r == s.(pc := s.pc[t := Idle])
  {
    hide Reaches, Enabled, NextState, Continues;
    if n >= MAX_READY_LIST_LEN {
      MakesSkipWait(s, t, n);
      OneMore(ms, s, t, SkipWait);
      ms', r := ms + [Move(t, SkipWait)], NextState(s, t, SkipWait);
    } else {
      MakesWait(s, t, n, []);
      OneMore(ms, s, t, Wait([]));
      ms', r := ms + [Move(t, Wait([]))], NextState(s, t, Wait([]));
      assert Disarm(s.armed, []) == s.armed;
    }
  }

  // A thread pops the ready list and serves what it finds, up to its next wait.
  lemma PopAndServe(ms: seq<Move>, s: State, t: Tid) returns (ms': seq<Move>, r: State, n: nat)
    requires Reaches(ms, s) && Open(s) && t < |s.pc| && s.pc[t] == AtReadyList
    ensures Reaches(ms', r) && Continues(ms, ms') && SameTraffic(s, r) && Open(r)
    ensures r.pc == s.pc[t := AtWait(n)] && r.armed == s.armed
    ensures s.readyList == [] ==> n == 0 && r.readyList == [] && r.ctx == s.ctx && r.completion == s.completion
    ensures s.readyList != [] ==>
      n == |s.readyList| - 1 && r.readyList == s.readyList[1..]
      && r.ctx == s.ctx[s.readyList[0] := Ctx([], [], false, None)] && r.ctx.Keys == s.ctx.Keys
  {
    hide Reaches, Enabled, NextState, Continues;
    MakesPopReady(s, t);
    OneMore(ms, s, t, PopReady);
    ms', r := ms + [Move(t, PopReady)], NextState(s, t, PopReady);
    n := 0;
    if s.readyList != [] {
      n := |s.readyList| - 1;
      var m, q := ms', r;
      ms', r := Serve(m, q, t, s.readyList[0], n);
      ContinuesMore(ms, m, ms');
      assert r.pc == s.pc[t := AtWait(n)];
    }
  }

  // A thread that carries an operation calls it.
  lemma CallIt(ms: seq<Move>, s: State, t: Tid, o: Overlapped) returns (ms': seq<Move>, r: State)
    requires Reaches(ms, s) && t < |s.pc| && s.pc[t] == Calling(o)
    ensures Reaches(ms', r) && Continues(ms, ms')
    ensures r == s.(pc := s.pc[t := AtReadyList], called := s.called + [o])
  {
    hide Reaches, Enabled, NextState, Continues;
    MakesCall(s, t, o);
    OneMore(ms, s, t, Call);
    ms', r := ms + [Move(t, Call)], NextState(s, t, Call);
  }

  // ----- New work -----

  // Thread t submits to x, finding the flag set or clear.
  function SubmitRun(t: Tid, x: Ep, iotype: IoType, ready: bool): seq<Move> {
    [Move(t, Submit(iotype, x)), Move(t, Append), Move(t, Check)]
    + (if ready then [] else [Move(t, Post)]) + [Move(t, Release)]
  }

  function Submitted(s: State, x: Ep, iotype: IoType): State
    requires x in s.ctx
  {
    var c := s.ctx[x];
    var o := NewOverlapped(|s.submitted|, iotype, x);
    var c' := if DirOf(iotype) == Rd then c.(rd := c.rd + [o]) else c.(wr := c.wr + [o]);
    s.(ctx := s.ctx[x := c'.(ready := true)],
       readyList := s.readyList + (if c.ready then [] else [x]),
       submitted := s.submitted + [o])
  }

  // Thread t looks at the flag of x, posts x unless it was set, and goes idle.
  function AnnounceRun(t: Tid, ready: bool): seq<Move> {
    [Move(t, Check)] + (if ready then [] else [Move(t, Post)]) + [Move(t, Release)]
  }

  lemma Announces(ms: seq<Move>, s: State, t: Tid, x: Ep)
    requires Reaches(ms, s) && t < |s.pc| && s.pc[t] == Checking(x) && x in s.ctx
    ensures var c := s.ctx[x];
      Reaches(ms + AnnounceRun(t, c.ready), s.(
        pc := s.pc[t := Idle],
        ctx := s.ctx[x := c.(ready := true, owner := None)],
        readyList := s.readyList + (if c.ready then [] else [x])))
  {
    hide Reaches, Enabled, NextState;
    var c := s.ctx[x];
    MakesCheck(s, t, x);
    var m1, s1 := ms + [Move(t, Check)], NextState(s, t, Check);
    ReachesMore(ms, s, t, Check);
    var m2, s2 := m1, s1;
    if !c.ready {
      MakesPost(s1, t, x, ToIdle);
      m2, s2 := m1 + [Move(t, Post)], NextState(s1, t, Post);
      ReachesMore(m1, s1, t, Post);
    }
    MakesRelease(s2, t, x, ToIdle);
    ReachesMore(m2, s2, t, Release);
    var r := NextState(s2, t, Release);
    assert r.ctx == s.ctx[x := c.(ready := true, owner := None)];
    assert r.readyList == s.readyList + if c.ready then [] else [x];
    assert r == s.(pc := s.pc[t := Idle], ctx := r.ctx, readyList := r.readyList);
    assert m2 + [Move(t, Release)] == ms + AnnounceRun(t, c.ready);
  }

  lemma Submits(ms: seq<Move>, s: State, t: Tid, x: Ep, iotype: IoType)
    requires Reaches(ms, s) && t < |s.pc| && s.pc[t] == Idle && Free(s, x)
    ensures Reaches(ms + SubmitRun(t, x, iotype, s.ctx[x].ready), Submitted(s, x, iotype))
  {
    hide Reaches, Enabled, NextState;
    var c, op := s.ctx[x], NewOverlapped(0, iotype, x);
    MakesSubmit(s, t, iotype, x);
    var m1, s1 := ms + [Move(t, Submit(iotype, x))], NextState(s, t, Submit(iotype, x));
    ReachesMore(ms, s, t, Submit(iotype, x));
    MakesAppend(s1, t, op);
    var m2, s2 := m1 + [Move(t, Append)], NextState(s1, t, Append);
    ReachesMore(m1, s1, t, Append);
    Announces(m2, s2, t, x);
    var r := Submitted(s, x, iotype);
    assert s2.ctx[x := s2.ctx[x].(ready := true, owner := None)] == r.ctx;
    assert s2.pc[t := Idle] == s.pc;
    assert m2 + AnnounceRun(t, c.ready) == ms + SubmitRun(t, x, iotype, c.ready);
  }
}
