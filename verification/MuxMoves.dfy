/** The state machine action by action: when a thread can make each move, and what the move does. */
module MuxMoves {
  import opened Prelude
  import opened MuxModel

  ghost predicate Unlocked(contexts: map<Ep, Ctx>) {
    forall ep :: ep in contexts ==> contexts[ep].owner == None
  }

  function With(s: State, ep: Ep, c: Ctx): State {
    s.(ctx := s.ctx[ep := c])
  }

  lemma MakesJoin(s: State, t: Tid, ep: Ep)
    requires t < |s.pc| && s.pc[t] == Idle && ep !in s.ctx
    ensures Enabled(s, t, Join(ep)) && NextState(s, t, Join(ep)) == With(s, ep, Ctx([], [], false, None))
  {
  }

  lemma MakesSubmit(s: State, t: Tid, iotype: IoType, ep: Ep)
    requires t < |s.pc| && s.pc[t] == Idle && Free(s, ep)
    ensures var a := Submit(iotype, ep);
      Enabled(s, t, a)
      && NextState(s, t, a)
        == With(Goto(s, t, Appending(NewOverlapped(0, iotype, ep))), ep, s.ctx[ep].(owner := Some(t)))
  {
  }

  lemma MakesAppend(s: State, t: Tid, op: Overlapped)
    requires t < |s.pc| && s.pc[t] == Appending(op) && op.ep in s.ctx
    ensures var o := op.(id := |s.submitted|);
      var c := s.ctx[o.ep];
      Enabled(s, t, Append)
      && NextState(s, t, Append)
        == With(Goto(s, t, Checking(o.ep)), o.ep,
                if DirOf(o.iotype) == Rd then c.(rd := c.rd + [o]) else c.(wr := c.wr + [o]))
             .(submitted := s.submitted + [o])
  {
  }

  lemma MakesCheck(s: State, t: Tid, ep: Ep)
    requires t < |s.pc| && s.pc[t] == Checking(ep) && ep in s.ctx
    ensures Enabled(s, t, Check)
    ensures NextState(s, t, Check)
      == if s.ctx[ep].ready then Goto(s, t, Leaving(ep, ToIdle))
         else With(Goto(s, t, Posting(ep, ToIdle)), ep, s.ctx[ep].(ready := true))
  {
  }

  lemma MakesPost(s: State, t: Tid, ep: Ep, next: Next)
    requires t < |s.pc| && s.pc[t] == Posting(ep, next) && ep in s.ctx
    ensures Enabled(s, t, Post)
    ensures NextState(s, t, Post) == Goto(s, t, Leaving(ep, next)).(readyList := s.readyList + [ep])
  {
  }

  lemma MakesRelease(s: State, t: Tid, ep: Ep, next: Next)
    requires t < |s.pc| && s.pc[t] == Leaving(ep, next) && ep in s.ctx
    ensures Enabled(s, t, Release)
    ensures NextState(s, t, Release) == With(Goto(s, t, After(next)), ep, s.ctx[ep].(owner := None))
  {
  }

  // ----- runOnce -----

  lemma MakesPopCompleted(s: State, t: Tid)
    requires t < |s.pc| && s.pc[t] == Idle
    ensures Enabled(s, t, PopCompleted)
    ensures NextState(s, t, PopCompleted)
      == if s.completion == [] then Goto(s, t, AtReadyList)
         else Goto(s, t, Calling(s.completion[0]))
                .(completion := s.completion[1..], popped := s.popped + [s.completion[0]])
  {
  }

  lemma MakesCall(s: State, t: Tid, op: Overlapped)
    requires t < |s.pc| && s.pc[t] == Calling(op)
    ensures Enabled(s, t, Call) && NextState(s, t, Call) == Goto(s, t, AtReadyList).(called := s.called + [op])
  {
  }

  lemma MakesPopReady(s: State, t: Tid)
    requires t < |s.pc| && s.pc[t] == AtReadyList
    ensures Enabled(s, t, PopReady)
    ensures NextState(s, t, PopReady)
      == if s.readyList == [] then Goto(s, t, AtWait(0))
         else Goto(s, t, Holding(s.readyList[0], |s.readyList| - 1)).(readyList := s.readyList[1..])
  {
  }

  lemma MakesAcquire(s: State, t: Tid, ep: Ep, pending: nat)
    requires t < |s.pc| && s.pc[t] == Holding(ep, pending) && Free(s, ep)
    ensures Enabled(s, t, Acquire)
    ensures NextState(s, t, Acquire)
      == With(Goto(s, t, Reading(ep, pending)), ep, s.ctx[ep].(owner := Some(t), ready := false))
  {
  }

  lemma MakesRead(s: State, t: Tid, ep: Ep, pending: nat, o: Overlapped, completed: bool)
    requires t < |s.pc| && s.pc[t] == Reading(ep, pending) && ep in s.ctx && s.ctx[ep].rd != []
    requires PerformResult(s.ctx[ep].rd[0], o, completed)
    ensures var a := Read(o, completed);
      var r := With(s, ep, s.ctx[ep].(rd := s.ctx[ep].rd[0 := o]));
      Enabled(s, t, a)
      && NextState(s, t, a) == if completed then Goto(r, t, ReadPosted(ep, pending)).(completion := s.completion + [o])
                               else Goto(r, t, Writing(ep, pending))
  {
  }

  lemma MakesReadPop(s: State, t: Tid, ep: Ep, pending: nat)
    requires t < |s.pc| && s.pc[t] == ReadPosted(ep, pending) && ep in s.ctx && s.ctx[ep].rd != []
    ensures Enabled(s, t, ReadPop)
    ensures NextState(s, t, ReadPop)
      == With(Goto(s, t, Reading(ep, pending)), ep, s.ctx[ep].(rd := s.ctx[ep].rd[1..]))
  {
  }

  lemma MakesReadDone(s: State, t: Tid, ep: Ep, pending: nat)
    requires t < |s.pc| && s.pc[t] == Reading(ep, pending) && ep in s.ctx && s.ctx[ep].rd == []
    ensures Enabled(s, t, ReadDone) && NextState(s, t, ReadDone) == Goto(s, t, Writing(ep, pending))
  {
  }

  lemma MakesWrite(s: State, t: Tid, ep: Ep, pending: nat, o: Overlapped, completed: bool)
    requires t < |s.pc| && s.pc[t] == Writing(ep, pending) && ep in s.ctx && s.ctx[ep].wr != []
    requires PerformResult(s.ctx[ep].wr[0], o, completed)
    ensures var a := Write(o, completed);
      var r := With(s, ep, s.ctx[ep].(wr := s.ctx[ep].wr[0 := o]));
      Enabled(s, t, a)
      && NextState(s, t, a) == if completed then Goto(r, t, WritePosted(ep, pending)).(completion := s.completion + [o])
                               else Goto(r, t, Rearming(ep, pending))
  {
  }

  lemma MakesWritePop(s: State, t: Tid, ep: Ep, pending: nat)
    requires t < |s.pc| && s.pc[t] == WritePosted(ep, pending) && ep in s.ctx && s.ctx[ep].wr != []
    ensures Enabled(s, t, WritePop)
    ensures NextState(s, t, WritePop)
      == With(Goto(s, t, Writing(ep, pending)), ep, s.ctx[ep].(wr := s.ctx[ep].wr[1..]))
  {
  }

  lemma MakesWriteDone(s: State, t: Tid, ep: Ep, pending: nat)
    requires t < |s.pc| && s.pc[t] == Writing(ep, pending) && ep in s.ctx && s.ctx[ep].wr == []
    ensures Enabled(s, t, WriteDone) && NextState(s, t, WriteDone) == Goto(s, t, Rearming(ep, pending))
  {
  }

  lemma MakesRearm(s: State, t: Tid, ep: Ep, pending: nat)
    requires t < |s.pc| && s.pc[t] == Rearming(ep, pending) && ep in s.ctx
    ensures var dirs := Nonempty(s.ctx[ep]);
      Enabled(s, t, Rearm)
      && NextState(s, t, Rearm)
        == Goto(s, t, Leaving(ep, ToWait(pending))).(armed := if dirs == {} then s.armed else s.armed[ep := dirs])
  {
  }

  lemma MakesSkipWait(s: State, t: Tid, pending: nat)
    requires t < |s.pc| && s.pc[t] == AtWait(pending) && pending >= MAX_READY_LIST_LEN
    ensures Enabled(s, t, SkipWait) && NextState(s, t, SkipWait) == Goto(s, t, Idle)
  {
  }

  lemma MakesWait(s: State, t: Tid, pending: nat, events: seq<Event>)
    requires t < |s.pc| && s.pc[t] == AtWait(pending) && pending < MAX_READY_LIST_LEN && Reportable(s, events)
    ensures Enabled(s, t, Wait(events))
    ensures NextState(s, t, Wait(events))
      == Goto(s, t, if events == [] then Idle else Handling(events)).(armed := Disarm(s.armed, events))
  {
  }

  lemma MakesHandle(s: State, t: Tid, events: seq<Event>)
    requires t < |s.pc| && s.pc[t] == Handling(events) && events != [] && Free(s, events[0].ep)
    ensures var e := events[0];
      Enabled(s, t, Handle)
      && NextState(s, t, Handle)
        == With(Goto(s, t, if e.err then Flushing(e.ep, 0, events[1..]) else Posting(e.ep, ToEvents(events[1..]))),
                e.ep, s.ctx[e.ep].(owner := Some(t), ready := !e.err))
  {
  }

  lemma MakesHandleDone(s: State, t: Tid)
    requires t < |s.pc| && s.pc[t] == Handling([])
    ensures Enabled(s, t, HandleDone) && NextState(s, t, HandleDone) == Goto(s, t, Idle)
  {
  }

  lemma MakesFlush(s: State, t: Tid, ep: Ep, done: nat, rest: seq<Event>)
    requires t < |s.pc| && s.pc[t] == Flushing(ep, done, rest) && ep in s.ctx
    requires done < |s.ctx[ep].rd| + |s.ctx[ep].wr|
    ensures var o := (s.ctx[ep].rd + s.ctx[ep].wr)[done];
      Enabled(s, t, Flush)
      && NextState(s, t, Flush)
        == Goto(s, t, Flushing(ep, done + 1, rest))
             .(completion := s.completion + [o.(errorcode := ECONNABORTED)])
  {
  }

  lemma MakesFlushDone(s: State, t: Tid, ep: Ep, done: nat, rest: seq<Event>)
    requires t < |s.pc| && s.pc[t] == Flushing(ep, done, rest) && ep in s.ctx
    requires done == |s.ctx[ep].rd| + |s.ctx[ep].wr|
    ensures Enabled(s, t, FlushDone)
    ensures NextState(s, t, FlushDone)
      == With(Goto(s, t, Leaving(ep, ToEvents(rest))), ep, s.ctx[ep].(rd := [], wr := []))
  {
  }
}
