/** What the multiplexer promises in every state that any interleaving of any number of threads can reach. */
module MuxTheorems {
  import opened Prelude
  import opened MuxModel
  import opened MuxInvariant
  import opened MuxMoves

  datatype Move = Move(t: Tid, a: Action)

  // s is reached from some initial state by the moves ms, in order.
  ghost predicate Reaches(ms: seq<Move>, s: State)
    decreases |ms|
  {
    if ms == [] then Initial(s)
    else
      var last := ms[|ms| - 1];
      exists r :: Reaches(ms[..|ms| - 1], r) && Enabled(r, last.t, last.a) && s == NextState(r, last.t, last.a)
  }

  lemma {:induction false} ReachableInv(ms: seq<Move>, s: State)
    requires Reaches(ms, s)
    ensures Inv(s)
    decreases |ms|
  {
    hide NextState, Enabled, Inv;
    if ms == [] {
      InitialInv(s);
    } else {
      var last := ms[|ms| - 1];
      var r :| Reaches(ms[..|ms| - 1], r) && Enabled(r, last.t, last.a) && s == NextState(r, last.t, last.a);
      ReachableInv(ms[..|ms| - 1], r);
      StepInv(r, last.t, last.a);
    }
  }

  lemma ReachesMore(ms: seq<Move>, s: State, t: Tid, a: Action)
    requires Reaches(ms, s) && Enabled(s, t, a)
    ensures Reaches(ms + [Move(t, a)], NextState(s, t, a))
  {
    hide Enabled, NextState;
    var more := ms + [Move(t, a)];
    assert more[..|more| - 1] == ms;
    assert Reaches(more[..|more| - 1], s) && more[|more| - 1] == Move(t, a);
  }

  // A run of n threads determines its state.
  lemma {:induction false} RunDetermines(ms: seq<Move>, r: State, s: State)
    requires Reaches(ms, r) && Reaches(ms, s) && |r.pc| == |s.pc|
    ensures r == s
    decreases |ms|
  {
    hide Enabled, NextState;
    if ms == [] {
      assert r.pc == s.pc;
    } else {
      var init, last := ms[..|ms| - 1], ms[|ms| - 1];
      var r0 :| Reaches(init, r0) && Enabled(r0, last.t, last.a) && r == NextState(r0, last.t, last.a);
      var s0 :| Reaches(init, s0) && Enabled(s0, last.t, last.a) && s == NextState(s0, last.t, last.a);
      StepThread(r0, last.t, last.a);
      StepThread(s0, last.t, last.a);
      RunDetermines(init, r0, s0);
    }
  }

  // ----- Conservation and order -----

  // Outside critical sections: submitted = taken for callbacks ++ on the completion list ++ still queued.
  lemma OperationsConserved(ms: seq<Move>, s: State, ep: Ep, d: Dir)
    requires Reaches(ms, s) && Free(s, ep)
    ensures Stamps(s.submitted, ep, d)
      == Stamps(s.popped, ep, d) + Stamps(s.completion, ep, d) + Stamps(QueueOf(s.ctx[ep], d), ep, d)
  {
    hide Reaches, NextState;
    ReachableInv(ms, s);
    assert Accounted(s, ep, d);
    assert Pending(s, ep, d) == QueueOf(s.ctx[ep], d)[0..];
  }

  ghost predicate Ascending(s: seq<Stamp>) {
    forall i, j :: 0 <= i < j < |s| ==> s[i].id < s[j].id
  }

  lemma {:induction false} StampsBounds(s: seq<Overlapped>, lo: nat, ep: Ep, d: Dir)
    requires forall i :: 0 <= i < |s| ==> s[i].id == lo + i
    ensures forall k :: k in Stamps(s, ep, d) ==>
      lo <= k.id < lo + |s| && Belongs(s[k.id - lo], ep, d) && k == StampOf(s[k.id - lo])
  {
    if s != [] {
      StampsBounds(s[1..], lo + 1, ep, d);
      assert Stamps(s, ep, d) == StampIf(s[0], ep, d) + Stamps(s[1..], ep, d);
    }
  }

  lemma {:induction false} StampsAscend(s: seq<Overlapped>, lo: nat, ep: Ep, d: Dir)
    requires forall i :: 0 <= i < |s| ==> s[i].id == lo + i
    ensures Ascending(Stamps(s, ep, d))
  {
    if s != [] {
      StampsAscend(s[1..], lo + 1, ep, d);
      StampsBounds(s[1..], lo + 1, ep, d);
      AscendingCons(StampIf(s[0], ep, d), Stamps(s[1..], ep, d), lo);
    }
  }

  lemma AscendingCons(h: seq<Stamp>, rest: seq<Stamp>, lo: nat)
    requires |h| <= 1 && (h != [] ==> h[0].id == lo)
    requires Ascending(rest) && forall k :: k in rest ==> lo < k.id
    ensures Ascending(h + rest)
  {
    assert forall k :: 0 <= k < |rest| ==> rest[k] in rest;
  }

  lemma {:induction false} AscendingReflects(s: seq<Overlapped>, ep: Ep, d: Dir, i: nat, j: nat)
    requires Ascending(Stamps(s, ep, d)) && i < j < |s| && Belongs(s[i], ep, d) && Belongs(s[j], ep, d)
    ensures s[i].id < s[j].id
  {
    hide Stamps, Ascending;
    AscendingTail(s, ep, d);
    if i > 0 {
      AscendingReflects(s[1..], ep, d, i - 1, j - 1);
    } else {
      StampListed(s[1..], ep, d, j - 1);
    }
  }

  lemma AscendingTail(s: seq<Overlapped>, ep: Ep, d: Dir)
    requires s != [] && Ascending(Stamps(s, ep, d))
    ensures Ascending(Stamps(s[1..], ep, d))
    ensures Belongs(s[0], ep, d) ==> forall k :: k in Stamps(s[1..], ep, d) ==> s[0].id < k.id
  {
    hide Ascending;
    var h, rest := StampIf(s[0], ep, d), Stamps(s[1..], ep, d);
    assert Stamps(s, ep, d) == h + rest;
    AscendingParts(h, rest);
    assert Belongs(s[0], ep, d) ==> StampOf(s[0]) in h;
  }

  lemma AscendingParts(h: seq<Stamp>, rest: seq<Stamp>)
    requires Ascending(h + rest)
    ensures Ascending(rest)
    ensures forall x, k :: x in h && k in rest ==> x.id < k.id
  {
    var all := h + rest;
    assert forall i :: 0 <= i < |rest| ==> rest[i] == all[|h| + i];
    forall x, k | x in h && k in rest ensures x.id < k.id {
      var i :| 0 <= i < |h| && h[i] == x;
      var j :| 0 <= j < |rest| && rest[j] == k;
      assert all[i].id < all[|h| + j].id;
    }
  }

  lemma {:induction false} StampListed(s: seq<Overlapped>, ep: Ep, d: Dir, i: nat)
    requires i < |s| && Belongs(s[i], ep, d)
    ensures StampOf(s[i]) in Stamps(s, ep, d)
  {
    if i > 0 {
      StampListed(s[1..], ep, d, i - 1);
    }
  }

  // Operations of one endpoint and direction leave the completion list in submission order, for exactly the
  // first so many submissions.
  lemma PoppedInOrder(ms: seq<Move>, s: State, ep: Ep, d: Dir)
    requires Reaches(ms, s)
    ensures Stamps(s.popped, ep, d) <= Stamps(s.submitted, ep, d)
    ensures forall i, j :: 0 <= i < j < |s.popped| ==>
      Belongs(s.popped[i], ep, d) && Belongs(s.popped[j], ep, d) ==> s.popped[i].id < s.popped[j].id
  {
    hide Reaches, NextState;
    ReachableInv(ms, s);
    assert Accounted(s, ep, d);
    StampsAscend(s.submitted, 0, ep, d);
    var del, all := Stamps(s.popped, ep, d), Stamps(s.submitted, ep, d);
    assert forall i :: 0 <= i < |del| ==> del[i] == all[i];
    forall i, j | 0 <= i < j < |s.popped| && Belongs(s.popped[i], ep, d) && Belongs(s.popped[j], ep, d)
      ensures s.popped[i].id < s.popped[j].id
    {
      AscendingReflects(s.popped, ep, d, i, j);
    }
  }

  // Every operation taken for its callback was submitted, as it was submitted.
  lemma PoppedWasSubmitted(ms: seq<Move>, s: State, i: nat)
    requires Reaches(ms, s) && i < |s.popped|
    ensures s.popped[i].id < |s.submitted| && SameOperation(s.submitted[s.popped[i].id], s.popped[i])
  {
    hide Reaches, NextState;
    var o := s.popped[i];
    var d := DirOf(o.iotype);
    SubmittedNumbered(ms, s, o.ep, d);
    StampListed(s.popped, o.ep, d, i);
    StampsBounds(s.submitted, 0, o.ep, d);
    assert StampOf(o) in Stamps(s.submitted, o.ep, d);
  }

  lemma SubmittedNumbered(ms: seq<Move>, s: State, ep: Ep, d: Dir)
    requires Reaches(ms, s)
    ensures forall i :: 0 <= i < |s.submitted| ==> s.submitted[i].id == i
    ensures forall k :: k in Stamps(s.popped, ep, d) ==> k in Stamps(s.submitted, ep, d)
  {
    hide Reaches, NextState;
    ReachableInv(ms, s);
    assert Accounted(s, ep, d);
  }

  // No operation is taken for its callback twice.
  lemma PoppedOnce(ms: seq<Move>, s: State, i: nat, j: nat)
    requires Reaches(ms, s) && i < j < |s.popped|
    ensures s.popped[i].id != s.popped[j].id
  {
    hide Reaches, NextState;
    PoppedWasSubmitted(ms, s, i);
    PoppedWasSubmitted(ms, s, j);
    PoppedInOrder(ms, s, s.popped[i].ep, DirOf(s.popped[i].iotype));
  }

  // ----- Nothing is stranded -----

  lemma NothingStranded(ms: seq<Move>, s: State, ep: Ep, d: Dir)
    requires Reaches(ms, s) && Free(s, ep) && QueueOf(s.ctx[ep], d) != []
    ensures || ep in s.readyList
            || (exists t :: 0 <= t < |s.pc| && s.pc[t].Holding? && s.pc[t].ep == ep)
            || (exists t :: 0 <= t < |s.pc| && HasEvent(EventsOf(s.pc[t]), ep))
            || d in Armed(s, ep)
  {
    hide Reaches, NextState;
    ReachableInv(ms, s);
    assert NotStranded(s, ep, d);
    if Token(s, ep) && ep !in s.readyList {
      var t :| 0 <= t < |s.pc| && HasToken(s.pc[t], ep);
      assert HasEvent(EventsOf(s.pc[t]), ep) || (s.pc[t].Holding? && s.pc[t].ep == ep);
    }
  }

  // With every thread between calls and both lists empty, an endpoint that still owes a callback
  // in some direction is armed for that direction.
  lemma QuietMeansArmed(ms: seq<Move>, s: State, ep: Ep, d: Dir)
    requires Reaches(ms, s) && s.readyList == [] && s.completion == []
    requires forall t :: 0 <= t < |s.pc| ==> s.pc[t].Idle?
    ensures Stamps(s.submitted, ep, d) == Stamps(s.popped, ep, d) || d in Armed(s, ep)
  {
    hide Reaches, NextState;
    ReachableInv(ms, s);
    assert Accounted(s, ep, d);
    if ep in s.ctx {
      assert s.ctx[ep].owner == None;
      if QueueOf(s.ctx[ep], d) != [] {
        NothingStranded(ms, s, ep, d);
      }
    }
  }

  // ----- No deadlock -----

  ghost predicate CanMove(s: State, t: Tid) {
    exists a :: Enabled(s, t, a)
  }

  // The holder of a context lock never waits: it has an action at every point of its critical section.
  lemma LockHolderMoves(ms: seq<Move>, s: State, t: Tid)
    requires Reaches(ms, s) && t < |s.pc| && LockedEp(s.pc[t]).Some?
    ensures CanMove(s, t)
  {
    hide Reaches, NextState, Enabled;
    ReachableInv(ms, s);
    HolderFits(s, t);
    var ep := LockedEp(s.pc[t]).value;
    var c := s.ctx[ep];
    match s.pc[t] {
      case Reading(_, n) =>
        if c.rd == [] {
          MakesReadDone(s, t, ep, n);
        } else {
          MakesRead(s, t, ep, n, c.rd[0].(provisioned := true, errorcode := 0), true);
        }
      case ReadPosted(_, n) => MakesReadPop(s, t, ep, n);
      case Writing(_, n) =>
        if c.wr == [] {
          MakesWriteDone(s, t, ep, n);
        } else {
          MakesWrite(s, t, ep, n, c.wr[0].(provisioned := true, errorcode := 0), true);
        }
      case WritePosted(_, n) => MakesWritePop(s, t, ep, n);
      case Rearming(_, n) => MakesRearm(s, t, ep, n);
      case Flushing(_, done, rest) =>
        if done == |c.rd| + |c.wr| {
          MakesFlushDone(s, t, ep, done, rest);
        } else {
          MakesFlush(s, t, ep, done, rest);
        }
      case Appending(op) => MakesAppend(s, t, op);
      case Checking(_) => MakesCheck(s, t, ep);
      case Posting(_, next) => MakesPost(s, t, ep, next);
      case Leaving(_, next) => MakesRelease(s, t, ep, next);
      case _ =>
    }
  }

  lemma HolderFits(s: State, t: Tid)
    requires Inv(s) && t < |s.pc| && LockedEp(s.pc[t]).Some?
    ensures LockedEp(s.pc[t]).value in s.ctx && PcFits(s.pc[t], s.ctx[LockedEp(s.pc[t]).value])
    ensures s.ctx[LockedEp(s.pc[t]).value].owner == Some(t)
  {
  }

  // The lock a thread needs before it can go on.
  predicate WaitsFor(pc: Pc, ep: Ep) {
    (pc.Holding? && pc.ep == ep) || (pc.Handling? && pc.events != [] && pc.events[0].ep == ep)
  }

  // A thread can move, or waits for one lock whose holder can.
  lemma NoDeadlock(ms: seq<Move>, s: State, t: Tid)
    requires Reaches(ms, s) && t < |s.pc|
    ensures CanMove(s, t) ||
      exists ep, u :: ep in s.ctx && WaitsFor(s.pc[t], ep) && s.ctx[ep].owner == Some(u) && CanMove(s, u)
  {
    hide Reaches, NextState;
    var pc := s.pc[t];
    if LockedEp(pc).Some? {
      LockHolderMoves(ms, s, t);
    } else if pc.Holding? {
      WaiterOrMover(ms, s, t, pc.ep, Acquire);
    } else if pc.Handling? && pc.events != [] {
      assert HasEvent(EventsOf(pc), pc.events[0].ep);
      WaiterOrMover(ms, s, t, pc.events[0].ep, Handle);
    } else {
      var a := match pc
        case Idle => PopCompleted
        case Calling(_) => Call
        case AtReadyList => PopReady
        case AtWait(pending) => if pending >= MAX_READY_LIST_LEN then SkipWait else Wait([])
        case _ => HandleDone;
      assert Enabled(s, t, a);
    }
  }

  lemma WaiterOrMover(ms: seq<Move>, s: State, t: Tid, ep: Ep, a: Action)
    requires Reaches(ms, s) && t < |s.pc| && HasToken(s.pc[t], ep) && WaitsFor(s.pc[t], ep)
    requires Free(s, ep) ==> Enabled(s, t, a)
    ensures CanMove(s, t) ||
      exists u :: ep in s.ctx && s.ctx[ep].owner == Some(u) && CanMove(s, u)
  {
    hide Reaches, NextState;
    ReachableInv(ms, s);
    assert ep in s.ctx;
    if !Free(s, ep) {
      var u := s.ctx[ep].owner.value;
      assert LockedEp(s.pc[u]) == Some(ep);
      LockHolderMoves(ms, s, u);
    }
  }

  // ----- Success is reported only for operations that were performed -----

  ghost predicate Performed(ms: seq<Move>, o: Overlapped) {
    exists k :: 0 <= k < |ms| && (ms[k].a == Read(o, true) || ms[k].a == Write(o, true))
  }

  // An operation flushed by an error event never reports success: every reported success is the outcome of a
  // completed I/O step.
  lemma {:induction false} SuccessWasPerformed(ms: seq<Move>, s: State, o: Overlapped)
    requires Reaches(ms, s) && (o in s.completion || o in s.popped) && Report(o) == Success
    ensures Performed(ms, o)
    decreases |ms|
  {
    if ms != [] {
      var last := ms[|ms| - 1];
      var r :| Reaches(ms[..|ms| - 1], r) && Enabled(r, last.t, last.a) && s == NextState(r, last.t, last.a);
      CompletedBy(r, last.t, last.a, o);
      if o in r.completion || o in r.popped {
        SuccessWasPerformed(ms[..|ms| - 1], r, o);
        var k :| 0 <= k < |ms| - 1 && (ms[k].a == Read(o, true) || ms[k].a == Write(o, true));
      } else {
        assert ms[|ms| - 1].a == Read(o, true) || ms[|ms| - 1].a == Write(o, true);
      }
    }
  }

  lemma CompletedBy(s: State, t: Tid, a: Action, o: Overlapped)
    requires Enabled(s, t, a) && Report(o) == Success
    requires o in NextState(s, t, a).completion || o in NextState(s, t, a).popped
    ensures o in s.completion || o in s.popped || a == Read(o, true) || a == Write(o, true)
  {
    hide NextState, Enabled;
    StepLists(s, t, a);
    AbortIsNotSuccess(s, t, a);
    if a.PopCompleted? && s.completion != [] {
      assert s.completion == [s.completion[0]] + s.completion[1..];
    }
  }

  lemma AbortIsNotSuccess(s: State, t: Tid, a: Action)
    requires Enabled(s, t, a)
    ensures PostedBy(s, t, a).Some? && Report(PostedBy(s, t, a).value) == Success ==>
      a == Read(PostedBy(s, t, a).value, true) || a == Write(PostedBy(s, t, a).value, true)
  {
  }

  // ----- What a callback is told -----

  // The status of an operation, case by case.
  predicate ToldAs(o: Overlapped, status: Status) {
    && (status == Success <==> o.provisioned && o.errorcode == 0)
    && (status == RecvError <==> o.provisioned && o.errorcode != 0 && (o.iotype == Recv || o.iotype == RecvFrom))
    && (status == SendError <==> o.provisioned && o.errorcode != 0 && (o.iotype == Send || o.iotype == SendTo))
    && (status == AcceptError <==> o.provisioned && o.errorcode != 0 && o.iotype == Accept)
    && (status == ConnectError <==> o.provisioned && o.errorcode != 0 && o.iotype == Connect)
    && (status == ResolveError <==> !o.provisioned && o.iotype == Connect && o.hasPeer)
    && (status == InvalidOp <==> !o.provisioned && !(o.iotype == Connect && o.hasPeer))
  }

  lemma ReportMeans(o: Overlapped)
    ensures ToldAs(o, Report(o))
  {
  }

  // An operation no I/O step completed was aborted by an error event, and is told as an error of its own kind.
  lemma AbortedIsTold(ms: seq<Move>, s: State, o: Overlapped)
    requires Reaches(ms, s) && (o in s.completion || o in s.popped) && !Performed(ms, o)
    ensures o.errorcode == 103 && ToldAs(o, Report(o)) && Report(o) != Success
    ensures o.provisioned && (o.iotype == Recv || o.iotype == RecvFrom) ==> Report(o) == RecvError
    ensures o.provisioned && (o.iotype == Send || o.iotype == SendTo) ==> Report(o) == SendError
    ensures o.provisioned && o.iotype == Accept ==> Report(o) == AcceptError
    ensures o.provisioned && o.iotype == Connect ==> Report(o) == ConnectError
  {
    hide Reaches, Performed;
    AbortedCode(ms, s, o);
    ReportMeans(o);
  }

  lemma {:induction false} AbortedCode(ms: seq<Move>, s: State, o: Overlapped)
    requires Reaches(ms, s) && (o in s.completion || o in s.popped) && !Performed(ms, o)
    ensures o.errorcode == 103
    decreases |ms|
  {
    hide Enabled, NextState;
    if ms != [] {
      var init, last := ms[..|ms| - 1], ms[|ms| - 1];
      var r :| Reaches(init, r) && Enabled(r, last.t, last.a) && s == NextState(r, last.t, last.a);
      ListedBy(r, last.t, last.a, o);
      if o in r.completion || o in r.popped {
        assert forall k :: 0 <= k < |init| ==> init[k] == ms[k];
        AbortedCode(init, r, o);
      }
    }
  }

  // Where an operation on the completion list comes from.
  lemma ListedBy(s: State, t: Tid, a: Action, o: Overlapped)
    requires Enabled(s, t, a) && (o in NextState(s, t, a).completion || o in NextState(s, t, a).popped)
    ensures o in s.completion || o in s.popped || a == Read(o, true) || a == Write(o, true) || o.errorcode == 103
  {
    hide NextState, Enabled;
    StepLists(s, t, a);
    PostedHow(s, t, a);
    if a.PopCompleted? && s.completion != [] {
      assert s.completion == [s.completion[0]] + s.completion[1..];
    }
  }

  lemma PostedHow(s: State, t: Tid, a: Action)
    requires Enabled(s, t, a)
    ensures PostedBy(s, t, a).Some? ==>
      var o := PostedBy(s, t, a).value;
      a == Read(o, true) || a == Write(o, true) || o.errorcode == 103
  {
  }

  // ----- Which queue, and which direction -----

  // Receives and accepts wait on the read queue, sends and connects on the write queue.
  lemma QueuesByType(ms: seq<Move>, s: State, ep: Ep)
    requires Reaches(ms, s) && ep in s.ctx
    ensures forall o :: o in s.ctx[ep].rd ==>
      o.ep == ep && (o.iotype == Recv || o.iotype == RecvFrom || o.iotype == Accept)
    ensures forall o :: o in s.ctx[ep].wr ==>
      o.ep == ep && (o.iotype == Send || o.iotype == SendTo || o.iotype == Connect)
  {
    hide Reaches;
    ReachableInv(ms, s);
    assert QueueOk(s.ctx[ep], ep);
  }

  // An unlocked endpoint that is not listed, nor popped, nor has an event under way is armed for reading if a
  // receive or an accept is queued on it, and for writing if a send or a connect is.
  lemma QueuedIsArmed(ms: seq<Move>, s: State, ep: Ep, o: Overlapped)
    requires Reaches(ms, s) && Free(s, ep) && (o in s.ctx[ep].rd || o in s.ctx[ep].wr)
    requires ep !in s.readyList
    requires forall t :: 0 <= t < |s.pc| ==> !(s.pc[t].Holding? && s.pc[t].ep == ep) && !HasEvent(EventsOf(s.pc[t]), ep)
    ensures o.iotype == Recv || o.iotype == RecvFrom || o.iotype == Accept ==> Rd in Armed(s, ep)
    ensures o.iotype == Send || o.iotype == SendTo || o.iotype == Connect ==> Wr in Armed(s, ep)
  {
    hide Reaches, HasEvent, EventsOf;
    QueuesByType(ms, s, ep);
    var d := if o in s.ctx[ep].rd then Rd else Wr;
    NothingStranded(ms, s, ep, d);
  }
}
