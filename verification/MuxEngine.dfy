/**
 The multiplexer as it is written: runOnce, the two serving loops and the submission path over shared lists
 and contexts rewritten in place. A call that is not interrupted is proved to be a run of the state machine
 of MuxModel by its thread alone, so that everything MuxTheorems says of reachable states holds of it.
 */
module MuxEngine {
  import opened Prelude
  import opened MuxFifo
  import opened MuxModel
  import opened MuxInvariant
  import opened MuxTheorems
  import opened MuxMoves

  // The moves of ms beyond those of before are all t's.
  ghost predicate OwnMoves(before: seq<Move>, ms: seq<Move>, t: Tid) {
    before <= ms && forall k :: |before| <= k < |ms| ==> ms[k].t == t
  }

  lemma OwnSelf(ms: seq<Move>, t: Tid)
    ensures OwnMoves(ms, ms, t)
  {
  }

  lemma OwnMore(a: seq<Move>, b: seq<Move>, c: seq<Move>, t: Tid)
    requires OwnMoves(a, b, t) && OwnMoves(b, c, t)
    ensures OwnMoves(a, c, t)
  {
  }

  // The context with one more operation at the end of its queue.
  function Appended(c: Ctx, o: Overlapped): Ctx {
    if DirOf(o.iotype) == Rd then c.(rd := c.rd + [o]) else c.(wr := c.wr + [o])
  }

  // The operation goes to the end of the queue its type calls for; the other queue stays.
  ghost predicate QueuedByType(before: Ctx, o: Overlapped, after: Ctx) {
    && (o.iotype == Recv || o.iotype == RecvFrom || o.iotype == Accept ==>
          after.rd == before.rd + [o] && after.wr == before.wr)
    && (o.iotype == Send || o.iotype == SendTo || o.iotype == Connect ==>
          after.wr == before.wr + [o] && after.rd == before.rd)
  }

  lemma AppendedByType(c: Ctx, o: Overlapped)
    ensures QueuedByType(c, o, Appended(c, o).(ready := true))
  {
  }

  datatype RunningStatus = Normal | TimedOut

  // What the threads share, as far as one call can tell.
  datatype Board = Board(
    contexts: map<Ep, Ctx>,
    completion: seq<Overlapped>,
    readyList: seq<Ep>,
    armed: map<Ep, set<Dir>>)

  // What became of the operations so far.
  datatype Ledger = Ledger(submitted: seq<Overlapped>, popped: seq<Overlapped>, called: seq<Overlapped>)

  // ----- What serving an endpoint comes to -----

  // The operations at the head of q were performed, in order, with the outcomes out; rest is what is left: nothing,
  // or an operation that would block and those behind it.
  ghost predicate Served(q: seq<Overlapped>, out: seq<Overlapped>, rest: seq<Overlapped>) {
    && |out| + |rest| == |q|
    && (forall i :: 0 <= i < |out| ==> PerformResult(q[i], out[i], true))
    && (rest != [] ==> PerformResult(q[|out|], rest[0], false) && rest[1..] == q[|out| + 1..])
  }

  // The same while serving, with nothing found to block yet.
  ghost predicate ServedSoFar(q: seq<Overlapped>, out: seq<Overlapped>, rest: seq<Overlapped>) {
    && |out| <= |q| && rest == q[|out|..]
    && forall i :: 0 <= i < |out| ==> PerformResult(q[i], out[i], true)
  }

  lemma NothingServed(q: seq<Overlapped>)
    ensures ServedSoFar(q, [], q)
  {
  }

  lemma ServeNext(q: seq<Overlapped>, out: seq<Overlapped>, rest: seq<Overlapped>, o: Overlapped)
    requires ServedSoFar(q, out, rest) && rest != [] && PerformResult(rest[0], o, true)
    ensures ServedSoFar(q, out + [o], rest[1..])
  {
  }

  lemma ServeBlocked(q: seq<Overlapped>, out: seq<Overlapped>, rest: seq<Overlapped>, o: Overlapped)
    requires ServedSoFar(q, out, rest) && rest != [] && PerformResult(rest[0], o, false)
    ensures Served(q, out, rest[0 := o])
  {
    assert rest[0 := o][1..] == rest[1..];
  }

  lemma ServedAll(q: seq<Overlapped>, out: seq<Overlapped>)
    requires ServedSoFar(q, out, [])
    ensures Served(q, out, [])
  {
  }

  // The reads of c were served first, then the writes, down to what d still holds.
  ghost predicate ServedBoth(c: Ctx, out: seq<Overlapped>, d: Ctx) {
    && |d.rd| <= |c.rd| && |c.rd| - |d.rd| <= |out|
    && Served(c.rd, out[..|c.rd| - |d.rd|], d.rd)
    && Served(c.wr, out[|c.rd| - |d.rd|..], d.wr)
  }

  // An endpoint with nothing queued keeps whatever it was armed for.
  function Rearmed(armed: map<Ep, set<Dir>>, ep: Ep, c: Ctx): map<Ep, set<Dir>> {
    if Nonempty(c) == {} then armed else armed[ep := Nonempty(c)]
  }

  ghost predicate EndpointServed(b: Board, ep: Ep, r: Board) {
    && ep in b.contexts && ep in r.contexts && b.completion <= r.completion
    && var d := r.contexts[ep];
      && ServedBoth(b.contexts[ep], r.completion[|b.completion|..], d)
      && !d.ready && d.owner == None
      && r == b.(contexts := b.contexts[ep := d], completion := r.completion, armed := Rearmed(b.armed, ep, d))
  }

  // The first entry of the ready list is taken off and served.
  ghost predicate ReadyServed(b: Board, r: Board) {
    if b.readyList == [] then r == b
    else EndpointServed(b.(readyList := b.readyList[1..]), b.readyList[0], r)
  }

  // ----- What events come to -----

  function Aborted(q: seq<Overlapped>): seq<Overlapped> {
    seq(|q|, i requires 0 <= i < |q| => q[i].(errorcode := ECONNABORTED))
  }

  // A failed endpoint loses its operations to the completion list, reads first; any other is posted.
  function Handled(b: Board, e: Event): Board
    requires e.ep in b.contexts
  {
    var c := b.contexts[e.ep];
    if e.err then
      b.(contexts := b.contexts[e.ep := Ctx([], [], false, None)],
         completion := b.completion + Aborted(c.rd) + Aborted(c.wr))
    else
      b.(contexts := b.contexts[e.ep := c.(ready := true)], readyList := b.readyList + [e.ep])
  }

  lemma AbortedSize(q: seq<Overlapped>)
    ensures |Aborted(q)| == |q| && Aborted(q)[..0] == [] && Aborted(q)[..|q|] == Aborted(q)
  {
  }

  lemma AbortedNext(q: seq<Overlapped>, i: nat)
    requires i < |q|
    ensures |Aborted(q)| == |q| && Aborted(q)[..i + 1] == Aborted(q)[..i] + [q[i].(errorcode := ECONNABORTED)]
  {
  }

  // The events are about endpoints the multiplexer knows.
  predicate Known(contexts: map<Ep, Ctx>, events: seq<Event>) {
    forall i :: 0 <= i < |events| ==> events[i].ep in contexts
  }

  function AllHandled(b: Board, events: seq<Event>): Board
    requires Known(b.contexts, events)
    decreases |events|
  {
    if events == [] then b else AllHandled(Handled(b, events[0]), events[1..])
  }

  // What the kernel may report, by the contexts and the arming alone.
  predicate Offered(contexts: map<Ep, Ctx>, armed: map<Ep, set<Dir>>, events: seq<Event>) {
    Reportable(State(contexts, [], [], armed, [], [], [], []), events)
  }

  // A wait: nothing at all when the ready list was too long, or the events are disarmed and handled in order.
  ghost predicate Waited(b: Board, pendingCnt: nat, events: seq<Event>, r: Board) {
    if pendingCnt >= MAX_READY_LIST_LEN then events == [] && r == b
    else
      && Offered(b.contexts, b.armed, events) && Known(b.contexts, events)
      && r == AllHandled(b.(armed := Disarm(b.armed, events)), events)
  }

  // The first completed operation is taken off.
  function Delivered(b: Board): Board {
    if b.completion == [] then b else b.(completion := b.completion[1..])
  }

  // One round: deliver, serve, wait. m is the board before the wait.
  ghost predicate RoundDone(b: Board, m: Board, events: seq<Event>, r: Board) {
    && ReadyServed(Delivered(b), m)
    && Waited(m, if b.readyList == [] then 0 else |b.readyList| - 1, events, r)
  }

  class NetIoMuxImpl {
    const completionList: NetIoMuxSyncFifo<Overlapped>
    const readyList: NetIoMuxSyncFifo<Ep>
    var contexts: map<Ep, Ctx>
    var armed: map<Ep, set<Dir>>   // what the kernel will report
    var created: nat               // numbers the operations

    // The run so far: where each thread is, what was submitted, popped and called, and the moves made.
    ghost var pc: seq<Pc>
    ghost var submitted: seq<Overlapped>
    ghost var popped: seq<Overlapped>
    ghost var called: seq<Overlapped>
    ghost var history: seq<Move>

    ghost function Abs(): State
      reads this, completionList, readyList
    {
      State(contexts, readyList.list, completionList.list, armed, pc, submitted, popped, called)
    }

    ghost function Shared(): Board
      reads this, completionList, readyList
    {
      Board(contexts, completionList.list, readyList.list, armed)
    }

    ghost function Books(): Ledger
      reads this
    {
      Ledger(submitted, popped, called)
    }

    ghost predicate Valid()
      reads this, completionList, readyList
    {
      && completionList as object != readyList
      && created == |submitted|
      && Reaches(history, Abs())
    }

    // Thread t is between calls and nobody holds a lock.
    ghost predicate Quiet(t: Tid)
      reads this
    {
      t < |pc| && pc[t] == Idle && Unlocked(contexts)
    }

    constructor (threads: nat)
      ensures Valid() && history == [] && pc == seq(threads, _ => Idle)
      ensures Shared() == Board(map[], [], [], map[]) && Books() == Ledger([], [], [])
      ensures fresh(completionList) && fresh(readyList)
    {
      completionList := new NetIoMuxSyncFifo<Overlapped>();
      readyList := new NetIoMuxSyncFifo<Ep>();
      contexts, armed, created := map[], map[], 0;
      pc := seq(threads, _ => Idle);
      submitted, popped, called, history := [], [], [], [];
    }

    // Notes that the shared state has just made move a of thread t from state s.
    ghost method Note(s: State, t: Tid, a: Action)
      requires Reaches(history, s) && Enabled(s, t, a)
      requires var r := NextState(s, t, a);
        && contexts == r.ctx && armed == r.armed
        && readyList.list == r.readyList && completionList.list == r.completion
      modifies this`pc, this`submitted, this`popped, this`called, this`history
      ensures Abs() == NextState(s, t, a) && Reaches(history, Abs())
      ensures history == old(history) + [Move(t, a)]
    {
      hide Reaches, Enabled, NextState;
      var r := NextState(s, t, a);
      ReachesMore(history, s, t, a);
      pc, submitted, popped, called := r.pc, r.submitted, r.popped, r.called;
      history := history + [Move(t, a)];
    }

    method Join(t: Tid, ep: Ep) returns (joined: bool)
      requires Valid() && Quiet(t)
      modifies this
      ensures Valid() && Quiet(t) && OwnMoves(old(history), history, t)
      ensures joined <==> ep !in old(contexts)
      ensures contexts == if joined then old(contexts)[ep := Ctx([], [], false, None)] else old(contexts)
      ensures Shared() == old(Shared()).(contexts := contexts) && Books() == old(Books())
    {
      hide Reaches, Enabled, NextState;
      if ep in contexts {
        return false;
      }
      ghost var s := Abs();
      MakesJoin(s, t, ep);
      contexts := contexts[ep := Ctx([], [], false, None)];
      Note(s, t, MuxModel.Join(ep));
      return true;
    }

    // ----- Submission -----

    method AsyncSubmit(t: Tid, ep: Ep, iotype: IoType)
      requires Valid() && Quiet(t)
      modifies this, readyList
      ensures Valid() && Quiet(t) && OwnMoves(old(history), history, t)
      ensures ep !in old(contexts) ==> Shared() == old(Shared()) && Books() == old(Books())
      ensures armed == old(armed) && popped == old(popped) && called == old(called)
      ensures ep in old(contexts) ==>
        var o := Overlapped(|old(submitted)|, iotype, ep, false, 0,
                            iotype == RecvFrom || iotype == SendTo || iotype == Accept);
        var c := old(contexts[ep]);
        && submitted == old(submitted) + [o] && ep in contexts && QueuedByType(c, o, contexts[ep])
        && contexts == old(contexts)[ep := Appended(c, o).(ready := true)]
        && readyList.list == old(readyList.list) + if c.ready then [] else [ep]
    {
      hide Reaches, Enabled, NextState, Valid, OwnMoves, Unlocked, QueuedByType;
      ghost var c0, h0 := contexts, history;
      OwnSelf(h0, t);
      if ep !in contexts {
        return;
      }
      HeldByNone(contexts, ep);
      AppendedByType(c0[ep], NewOverlapped(|submitted|, iotype, ep));
      LockToSubmit(t, ep, iotype);
      ghost var h1 := history;
      AppendAsyncOpLocked(t, ep, NewOverlapped(0, iotype, ep));
      OwnMore(h0, h1, history, t);
      ghost var h2 := history;
      Unlock(t, ep, ToIdle);
      OwnMore(h0, h2, history, t);
      assert contexts == c0[ep := contexts[ep]];
      StillUnlocked(c0, ep, contexts[ep]);
    }

    method LockToSubmit(t: Tid, ep: Ep, ghost iotype: IoType)
      requires Valid() && Quiet(t) && ep in contexts
      modifies this
      ensures Valid() && OwnMoves(old(history), history, t)
      ensures t < |pc| && pc[t] == Appending(NewOverlapped(0, iotype, ep)) && Books() == old(Books())
      ensures Shared() == old(Shared()).(contexts := old(contexts)[ep := old(contexts[ep]).(owner := Some(t))])
    {
      hide Reaches, Enabled, NextState;
      ghost var s := Abs();
      MakesSubmit(s, t, iotype, ep);
      contexts := contexts[ep := contexts[ep].(owner := Some(t))];
      Note(s, t, Submit(iotype, ep));
    }

    // Queue the operation, and have the endpoint served unless that is already due.
    method AppendAsyncOpLocked(t: Tid, ep: Ep, op: Overlapped)
      requires Valid() && t < |pc| && pc[t] == Appending(op) && op.ep == ep && ep in contexts
      modifies this, readyList
      ensures Valid() && OwnMoves(old(history), history, t)
      ensures t < |pc| && pc[t] == Leaving(ep, ToIdle)
      ensures armed == old(armed) && popped == old(popped) && called == old(called)
      ensures var o := op.(id := |old(submitted)|);
        var c := old(contexts[ep]);
        && submitted == old(submitted) + [o] && ep in contexts && QueuedByType(c, o, contexts[ep])
        && contexts == old(contexts)[ep := Appended(c, o).(ready := true)]
        && readyList.list == old(readyList.list) + if c.ready then [] else [ep]
    {
      hide Reaches, Enabled, NextState, OwnMoves, QueuedByType;
      AppendedByType(contexts[ep], op.(id := |submitted|));
      ghost var h0 := history;
      Queue(t, ep, op);
      ghost var h1 := history;
      var posts := SetReady(t, ep);
      OwnMore(h0, h1, history, t);
      ghost var h2 := history;
      if posts {
        PostReady(t, ep, ToIdle);
        OwnMore(h0, h2, history, t);
      }
    }

    // Sets the ready flag, and tells whether it was clear.
    method SetReady(t: Tid, ep: Ep) returns (posts: bool)
      requires Valid() && t < |pc| && pc[t] == Checking(ep) && ep in contexts
      modifies this
      ensures Valid() && OwnMoves(old(history), history, t)
      ensures t < |pc| && pc[t] == if posts then Posting(ep, ToIdle) else Leaving(ep, ToIdle)
      ensures posts == !old(contexts[ep]).ready && submitted == old(submitted)
      ensures contexts == old(contexts)[ep := old(contexts[ep]).(ready := true)]
      ensures armed == old(armed) && popped == old(popped) && called == old(called)
    {
      hide Reaches, Enabled, NextState;
      ghost var s := Abs();
      MakesCheck(s, t, ep);
      posts := !contexts[ep].ready;
      if posts {
        contexts := contexts[ep := contexts[ep].(ready := true)];
      }
      Note(s, t, Check);
    }

    method Queue(t: Tid, ep: Ep, op: Overlapped)
      requires Valid() && t < |pc| && pc[t] == Appending(op) && op.ep == ep && ep in contexts
      modifies this
      ensures Valid() && OwnMoves(old(history), history, t)
      ensures t < |pc| && pc[t] == Checking(ep)
      ensures var o := op.(id := |old(submitted)|);
        submitted == old(submitted) + [o] && contexts == old(contexts)[ep := Appended(old(contexts[ep]), o)]
      ensures armed == old(armed) && popped == old(popped) && called == old(called)
    {
      hide Reaches, Enabled, NextState;
      ghost var s := Abs();
      MakesAppend(s, t, op);
      var o := op.(id := created);
      created := created + 1;
      var ctx := contexts[ep];
      if DirOf(o.iotype) == Rd {
        contexts := contexts[ep := ctx.(rd := ctx.rd + [o])];
      } else {
        contexts := contexts[ep := ctx.(wr := ctx.wr + [o])];
      }
      Note(s, t, Append);
    }

    method PostReady(t: Tid, ep: Ep, ghost next: Next)
      requires Valid() && t < |pc| && pc[t] == Posting(ep, next) && ep in contexts
      modifies this, readyList
      ensures Valid() && OwnMoves(old(history), history, t)
      ensures t < |pc| && pc[t] == Leaving(ep, next) && Books() == old(Books())
      ensures Shared() == old(Shared()).(readyList := old(readyList.list) + [ep])
    {
      hide Reaches, Enabled, NextState;
      ghost var s := Abs();
      MakesPost(s, t, ep, next);
      readyList.PushBack(Some(ep));
      Note(s, t, Post);
    }

    method Unlock(t: Tid, ep: Ep, ghost next: Next)
      requires Valid() && t < |pc| && pc[t] == Leaving(ep, next) && ep in contexts
      modifies this
      ensures Valid() && OwnMoves(old(history), history, t)
      ensures t < |pc| && pc[t] == After(next) && Books() == old(Books())
      ensures Shared() == old(Shared()).(contexts := old(contexts)[ep := old(contexts[ep]).(owner := None)])
    {
      hide Reaches, Enabled, NextState;
      ghost var s := Abs();
      MakesRelease(s, t, ep, next);
      contexts := contexts[ep := contexts[ep].(owner := None)];
      Note(s, t, Release);
    }

    // ----- Serving an endpoint -----

    // The outcome of the socket call is the environment's; a completed operation goes on the completion list.
    method PerformIoLocked(o: Overlapped) returns (r: Overlapped, completed: bool)
      modifies completionList
      ensures PerformResult(o, r, completed)
      ensures completionList.list == old(completionList.list) + if completed then [r] else []
    {
      assert PerformResult(o, o.(provisioned := true, errorcode := 0), true);
      r, completed :| PerformResult(o, r, completed);
      if completed {
        completionList.PushBack(Some(r));
      }
    }

    method ServeReads(t: Tid, ep: Ep, ghost pending: nat)
      requires Valid() && t < |pc| && pc[t] == Reading(ep, pending) && ep in contexts
      modifies this, completionList
      ensures Valid() && OwnMoves(old(history), history, t)
      ensures t < |pc| && pc[t] == Writing(ep, pending) && Books() == old(Books())
      ensures ep in contexts && old(completionList.list) <= completionList.list
      ensures Served(old(contexts[ep].rd), completionList.list[|old(completionList.list)|..], contexts[ep].rd)
      ensures Shared() == old(Shared()).(
          contexts := old(contexts)[ep := old(contexts[ep]).(rd := contexts[ep].rd)], completion := completionList.list)
    {
      hide Reaches, Enabled, NextState, PerformResult, Valid, OwnMoves, Served, ServedSoFar;
      ghost var q, list, out, h0 := contexts[ep].rd, completionList.list, [], history;
      NothingServed(q);
      OwnSelf(h0, t);
      while contexts[ep].rd != []
        invariant Valid() && OwnMoves(h0, history, t)
        invariant t < |pc| && pc[t] == Reading(ep, pending) && Books() == old(Books())
        invariant ep in contexts && ServedSoFar(q, out, contexts[ep].rd)
        invariant Shared() == old(Shared()).(
            contexts := old(contexts)[ep := old(contexts[ep]).(rd := contexts[ep].rd)], completion := list + out)
        decreases |contexts[ep].rd|
      {
        ghost var rest, h := contexts[ep].rd, history;
        var o, completed := ServeRead(t, ep, pending);
        OwnMore(h0, h, history, t);
        if !completed {
          ServeBlocked(q, out, rest, o);
          assert completionList.list[|list|..] == out;
          return;
        }
        ServeNext(q, out, rest, o);
        out := out + [o];
      }
      ServedAll(q, out);
      assert completionList.list[|list|..] == out;
      ghost var h := history;
      ReadsDone(t, ep, pending);
      OwnMore(h0, h, history, t);
    }

    // Nothing is left in the read queue.
    ghost method ReadsDone(t: Tid, ep: Ep, pending: nat)
      requires Valid() && t < |pc| && pc[t] == Reading(ep, pending) && ep in contexts && contexts[ep].rd == []
      modifies this`pc, this`submitted, this`popped, this`called, this`history
      ensures Valid() && OwnMoves(old(history), history, t)
      ensures t < |pc| && pc[t] == Writing(ep, pending) && Books() == old(Books())
    {
      hide Reaches, Enabled, NextState;
      MakesReadDone(Abs(), t, ep, pending);
      Note(Abs(), t, ReadDone);
    }

    // Perform the operation at the head of the read queue, and take it off if it completed.
    method ServeRead(t: Tid, ep: Ep, ghost pending: nat) returns (o: Overlapped, completed: bool)
      requires Valid() && t < |pc| && pc[t] == Reading(ep, pending) && ep in contexts && contexts[ep].rd != []
      modifies this, completionList
      ensures Valid() && OwnMoves(old(history), history, t)
      ensures t < |pc| && pc[t] == (if completed then Reading(ep, pending) else Writing(ep, pending))
      ensures PerformResult(old(contexts[ep].rd)[0], o, completed) && Books() == old(Books())
      ensures var c := old(contexts[ep]);
        Shared() == old(Shared()).(
          contexts := old(contexts)[ep := c.(rd := if completed then c.rd[1..] else c.rd[0 := o])],
          completion := old(completionList.list) + if completed then [o] else [])
    {
      hide Reaches, Enabled, NextState, PerformResult;
      ghost var s := Abs();
      var ctx := contexts[ep];
      o, completed := PerformIoLocked(ctx.rd[0]);
      MakesRead(s, t, ep, pending, o, completed);
      contexts := contexts[ep := ctx.(rd := ctx.rd[0 := o])];
      Note(s, t, Read(o, completed));
      if completed {
        s := Abs();
        MakesReadPop(s, t, ep, pending);
        contexts := contexts[ep := contexts[ep].(rd := contexts[ep].rd[1..])];
        Note(s, t, ReadPop);
      }
    }

    method ServeWrites(t: Tid, ep: Ep, ghost pending: nat)
      requires Valid() && t < |pc| && pc[t] == Writing(ep, pending) && ep in contexts
      modifies this, completionList
      ensures Valid() && OwnMoves(old(history), history, t)
      ensures t < |pc| && pc[t] == Rearming(ep, pending) && Books() == old(Books())
      ensures ep in contexts && old(completionList.list) <= completionList.list
      ensures Served(old(contexts[ep].wr), completionList.list[|old(completionList.list)|..], contexts[ep].wr)
      ensures Shared() == old(Shared()).(
          contexts := old(contexts)[ep := old(contexts[ep]).(wr := contexts[ep].wr)], completion := completionList.list)
    {
      hide Reaches, Enabled, NextState, PerformResult, Valid, OwnMoves, Served, ServedSoFar;
      ghost var q, list, out, h0 := contexts[ep].wr, completionList.list, [], history;
      NothingServed(q);
      OwnSelf(h0, t);
      while contexts[ep].wr != []
        invariant Valid() && OwnMoves(h0, history, t)
        invariant t < |pc| && pc[t] == Writing(ep, pending) && Books() == old(Books())
        invariant ep in contexts && ServedSoFar(q, out, contexts[ep].wr)
        invariant Shared() == old(Shared()).(
            contexts := old(contexts)[ep := old(contexts[ep]).(wr := contexts[ep].wr)], completion := list + out)
        decreases |contexts[ep].wr|
      {
        ghost var rest, h := contexts[ep].wr, history;
        var o, completed := ServeWrite(t, ep, pending);
        OwnMore(h0, h, history, t);
        if !completed {
          ServeBlocked(q, out, rest, o);
          assert completionList.list[|list|..] == out;
          return;
        }
        ServeNext(q, out, rest, o);
        out := out + [o];
      }
      ServedAll(q, out);
      assert completionList.list[|list|..] == out;
      ghost var h := history;
      WritesDone(t, ep, pending);
      OwnMore(h0, h, history, t);
    }

    // Nothing is left in the write queue.
    ghost method WritesDone(t: Tid, ep: Ep, pending: nat)
      requires Valid() && t < |pc| && pc[t] == Writing(ep, pending) && ep in contexts && contexts[ep].wr == []
      modifies this`pc, this`submitted, this`popped, this`called, this`history
      ensures Valid() && OwnMoves(old(history), history, t)
      ensures t < |pc| && pc[t] == Rearming(ep, pending) && Books() == old(Books())
    {
      hide Reaches, Enabled, NextState;
      MakesWriteDone(Abs(), t, ep, pending);
      Note(Abs(), t, WriteDone);
    }

    // Perform the operation at the head of the write queue, and take it off if it completed.
    method ServeWrite(t: Tid, ep: Ep, ghost pending: nat) returns (o: Overlapped, completed: bool)
      requires Valid() && t < |pc| && pc[t] == Writing(ep, pending) && ep in contexts && contexts[ep].wr != []
      modifies this, completionList
      ensures Valid() && OwnMoves(old(history), history, t)
      ensures t < |pc| && pc[t] == (if completed then Writing(ep, pending) else Rearming(ep, pending))
      ensures PerformResult(old(contexts[ep].wr)[0], o, completed) && Books() == old(Books())
      ensures var c := old(contexts[ep]);
        Shared() == old(Shared()).(
          contexts := old(contexts)[ep := c.(wr := if completed then c.wr[1..] else c.wr[0 := o])],
          completion := old(completionList.list) + if completed then [o] else [])
    {
      hide Reaches, Enabled, NextState, PerformResult;
      ghost var s := Abs();
      var ctx := contexts[ep];
      o, completed := PerformIoLocked(ctx.wr[0]);
      MakesWrite(s, t, ep, pending, o, completed);
      contexts := contexts[ep := ctx.(wr := ctx.wr[0 := o])];
      Note(s, t, Write(o, completed));
      if completed {
        s := Abs();
        MakesWritePop(s, t, ep, pending);
        contexts := contexts[ep := contexts[ep].(wr := contexts[ep].wr[1..])];
        Note(s, t, WritePop);
      }
    }

    // Arm the endpoint for the directions that still have operations queued.
    method RearmLocked(t: Tid, ep: Ep, ghost pending: nat)
      requires Valid() && t < |pc| && pc[t] == Rearming(ep, pending) && ep in contexts
      modifies this
      ensures Valid() && OwnMoves(old(history), history, t)
      ensures t < |pc| && pc[t] == Leaving(ep, ToWait(pending)) && Books() == old(Books())
      ensures Shared() == old(Shared()).(armed := Rearmed(old(armed), ep, old(contexts[ep])))
    {
      hide Reaches, Enabled, NextState;
      ghost var s := Abs();
      MakesRearm(s, t, ep, pending);
      var dirs := {};
      if contexts[ep].rd != [] {
        dirs := dirs + {Rd};
      }
      if contexts[ep].wr != [] {
        dirs := dirs + {Wr};
      }
      assert dirs == Nonempty(contexts[ep]);
      if dirs != {} {
        armed := armed[ep := dirs];
      }
      Note(s, t, Rearm);
    }

    // ----- Events -----

    // The kernel reports what it likes of what is armed, and disarms it.
    method EpollWait() returns (events: seq<Event>)
      modifies this`armed
      ensures Offered(contexts, old(armed), events)
      ensures armed == Disarm(old(armed), events)
    {
      assert Offered(contexts, armed, []);
      events :| Offered(contexts, armed, events);
      armed := Disarm(armed, events);
    }

    // Every queued operation of a failed endpoint is aborted, reads first.
    method FlushLocked(t: Tid, ep: Ep, ghost rest: seq<Event>)
      requires Valid() && t < |pc| && pc[t] == Flushing(ep, 0, rest) && ep in contexts
      modifies this, completionList
      ensures Valid() && OwnMoves(old(history), history, t)
      ensures t < |pc| && pc[t] == Leaving(ep, ToEvents(rest)) && Books() == old(Books())
      ensures var c := old(contexts[ep]);
        Shared() == old(Shared()).(
          contexts := old(contexts)[ep := c.(rd := [], wr := [])],
          completion := old(completionList.list) + Aborted(c.rd) + Aborted(c.wr))
    {
      hide Reaches, Enabled, NextState, Valid, OwnMoves, Aborted;
      ghost var h0 := history;
      OwnSelf(h0, t);
      var ctx := contexts[ep];
      AbortedSize(ctx.rd);
      AbortedSize(ctx.wr);
      var i := 0;
      while i < |ctx.rd|
        invariant i <= |ctx.rd| && Valid() && OwnMoves(h0, history, t)
        invariant t < |pc| && pc[t] == Flushing(ep, i, rest) && Books() == old(Books())
        invariant Shared() == old(Shared()).(completion := old(completionList.list) + Aborted(ctx.rd)[..i])
      {
        ghost var h := history;
        FlushOne(t, ep, ctx.rd[i], i, rest);
        OwnMore(h0, h, history, t);
        AbortedNext(ctx.rd, i);
        i := i + 1;
      }
      i := 0;
      while i < |ctx.wr|
        invariant i <= |ctx.wr| && Valid() && OwnMoves(h0, history, t)
        invariant t < |pc| && pc[t] == Flushing(ep, |ctx.rd| + i, rest) && Books() == old(Books())
        invariant Shared() == old(Shared()).(
            completion := old(completionList.list) + Aborted(ctx.rd) + Aborted(ctx.wr)[..i])
      {
        ghost var h := history;
        FlushOne(t, ep, ctx.wr[i], |ctx.rd| + i, rest);
        OwnMore(h0, h, history, t);
        AbortedNext(ctx.wr, i);
        i := i + 1;
      }
      ghost var h := history;
      ClearQueues(t, ep, rest);
      OwnMore(h0, h, history, t);
    }

    // All operations of the endpoint have been aborted.
    method ClearQueues(t: Tid, ep: Ep, ghost rest: seq<Event>)
      requires Valid() && t < |pc| && ep in contexts
      requires pc[t] == Flushing(ep, |contexts[ep].rd| + |contexts[ep].wr|, rest)
      modifies this
      ensures Valid() && OwnMoves(old(history), history, t)
      ensures t < |pc| && pc[t] == Leaving(ep, ToEvents(rest)) && Books() == old(Books())
      ensures Shared() == old(Shared()).(contexts := old(contexts)[ep := old(contexts[ep]).(rd := [], wr := [])])
    {
      hide Reaches, Enabled, NextState;
      ghost var s := Abs();
      MakesFlushDone(s, t, ep, |contexts[ep].rd| + |contexts[ep].wr|, rest);
      contexts := contexts[ep := contexts[ep].(rd := [], wr := [])];
      Note(s, t, FlushDone);
    }

    method FlushOne(t: Tid, ep: Ep, o: Overlapped, ghost done: nat, ghost rest: seq<Event>)
      requires Valid() && t < |pc| && pc[t] == Flushing(ep, done, rest) && ep in contexts
      requires done < |contexts[ep].rd| + |contexts[ep].wr| && o == (contexts[ep].rd + contexts[ep].wr)[done]
      modifies this, completionList
      ensures Valid() && OwnMoves(old(history), history, t)
      ensures t < |pc| && pc[t] == Flushing(ep, done + 1, rest) && Books() == old(Books())
      ensures Shared() == old(Shared()).(completion := old(completionList.list) + [o.(errorcode := ECONNABORTED)])
    {
      hide Reaches, Enabled, NextState;
      ghost var s := Abs();
      MakesFlush(s, t, ep, done, rest);
      completionList.PushBack(Some(o.(errorcode := ECONNABORTED)));
      Note(s, t, Flush);
    }

    // One reported event: a failed endpoint is flushed, any other is put on the ready list.
    method HandleEvent(t: Tid, events: seq<Event>)
      requires Valid() && t < |pc| && pc[t] == Handling(events) && events != []
      requires events[0].ep in contexts && Unlocked(contexts)
      modifies this, completionList, readyList
      ensures Valid() && OwnMoves(old(history), history, t)
      ensures t < |pc| && pc[t] == Handling(events[1..]) && Books() == old(Books())
      ensures Shared() == Handled(old(Shared()), events[0])
      ensures contexts.Keys == old(contexts).Keys && Unlocked(contexts)
    {
      hide Reaches, Enabled, NextState, Valid, OwnMoves, Unlocked;
      var e := events[0];
      ghost var next := ToEvents(events[1..]);
      ghost var b0, h0 := Shared(), history;
      HeldByNone(contexts, e.ep);
      LockForEvent(t, events);
      ghost var h1 := history;
      if e.err {
        FlushLocked(t, e.ep, events[1..]);
      } else {
        PostReady(t, e.ep, next);
      }
      OwnMore(h0, h1, history, t);
      ghost var h2 := history;
      Unlock(t, e.ep, next);
      OwnMore(h0, h2, history, t);
      assert contexts == Handled(b0, e).contexts;
      StillUnlocked(b0.contexts, e.ep, contexts[e.ep]);
    }

    // Takes the lock of the endpoint the first event is about, and sets its flag unless it failed.
    method LockForEvent(t: Tid, events: seq<Event>)
      requires Valid() && t < |pc| && pc[t] == Handling(events) && events != []
      requires events[0].ep in contexts && Unlocked(contexts)
      modifies this
      ensures Valid() && OwnMoves(old(history), history, t)
      ensures var e := events[0];
        && t < |pc|
        && pc[t] == (if e.err then Flushing(e.ep, 0, events[1..]) else Posting(e.ep, ToEvents(events[1..])))
        && Books() == old(Books())
        && Shared() == old(Shared()).(
          contexts := old(contexts)[e.ep := old(contexts[e.ep]).(owner := Some(t), ready := !e.err)])
    {
      hide Reaches, Enabled, NextState;
      ghost var s := Abs();
      MakesHandle(s, t, events);
      var e := events[0];
      contexts := contexts[e.ep := contexts[e.ep].(owner := Some(t), ready := false)];
      if !e.err {
        contexts := contexts[e.ep := contexts[e.ep].(ready := true)];
      }
      Note(s, t, Handle);
    }

    // ----- runOnce -----

    // Hands the first completed operation to its callback.
    method DeliverOne(t: Tid) returns (reported: Option<Status>)
      requires Valid() && Quiet(t)
      modifies this, completionList
      ensures Valid() && OwnMoves(old(history), history, t)
      ensures t < |pc| && pc[t] == AtReadyList && Shared() == Delivered(old(Shared()))
      ensures old(completionList.list) == [] ==>
        reported == None && Books() == old(Books()) && history == old(history) + [Move(t, PopCompleted)]
      ensures old(completionList.list) != [] ==>
        var o := old(completionList.list)[0];
        && reported == Some(Report(o)) && ToldAs(o, reported.value)
        && history == old(history) + [Move(t, PopCompleted), Move(t, Call)]
        && Books() == old(Books()).(popped := old(popped) + [o], called := old(called) + [o])
    {
      hide Reaches, Enabled, NextState, ToldAs;
      ghost var s := Abs();
      MakesPopCompleted(s, t);
      var co, count := completionList.PopFront();
      Note(s, t, PopCompleted);
      reported := None;
      if co.Some? {
        s := Abs();
        MakesCall(s, t, co.value);
        ReportMeans(co.value);
        reported := Some(Report(co.value));
        Note(s, t, Call);
      }
    }

    // Performs what is queued on an endpoint until it would block, under the endpoint's lock.
    method ServeEndpoint(t: Tid, ep: Ep, ghost pending: nat)
      requires Valid() && t < |pc| && pc[t] == Holding(ep, pending) && ep in contexts && Unlocked(contexts)
      modifies this, completionList
      ensures Valid() && OwnMoves(old(history), history, t)
      ensures t < |pc| && pc[t] == AtWait(pending) && Books() == old(Books())
      ensures EndpointServed(old(Shared()), ep, Shared())
      ensures contexts.Keys == old(contexts).Keys && Unlocked(contexts)
    {
      hide Reaches, Enabled, NextState, Valid, Unlocked, OwnMoves, ServedBoth, EndpointServed, Rearmed;
      ghost var b, h0 := Shared(), history;
      Lock(t, ep, pending);
      ghost var b1, h1 := Shared(), history;
      ServeQueues(t, ep, pending);
      ghost var b2, h2 := Shared(), history;
      OwnMore(h0, h1, h2, t);
      RearmLocked(t, ep, pending);
      ghost var h3 := history;
      OwnMore(h0, h2, h3, t);
      Unlock(t, ep, ToWait(pending));
      OwnMore(h0, h3, history, t);
      ServiceDone(b, b1, b2, Shared(), ep, t);
    }

    // Serves the reads, then the writes.
    method ServeQueues(t: Tid, ep: Ep, ghost pending: nat)
      requires Valid() && t < |pc| && pc[t] == Reading(ep, pending) && ep in contexts
      modifies this, completionList
      ensures Valid() && OwnMoves(old(history), history, t)
      ensures t < |pc| && pc[t] == Rearming(ep, pending) && Books() == old(Books())
      ensures ep in contexts && old(completionList.list) <= completionList.list
      ensures ServedBoth(old(contexts[ep]), completionList.list[|old(completionList.list)|..], contexts[ep])
      ensures Shared() == old(Shared()).(
          contexts := old(contexts)[ep := old(contexts[ep]).(rd := contexts[ep].rd, wr := contexts[ep].wr)],
          completion := completionList.list)
    {
      hide Reaches, Enabled, NextState, Valid, OwnMoves, Served, ServedBoth;
      ghost var c, list, h0 := contexts[ep], completionList.list, history;
      ServeReads(t, ep, pending);
      ghost var h1, outR := history, completionList.list[|list|..];
      ServeWrites(t, ep, pending);
      OwnMore(h0, h1, history, t);
      BothServed(c, list, outR, completionList.list, contexts[ep]);
    }

    method Lock(t: Tid, ep: Ep, ghost pending: nat)
      requires Valid() && t < |pc| && pc[t] == Holding(ep, pending) && ep in contexts && Unlocked(contexts)
      modifies this
      ensures Valid() && OwnMoves(old(history), history, t)
      ensures t < |pc| && pc[t] == Reading(ep, pending) && Books() == old(Books())
      ensures Shared() == old(Shared()).(
          contexts := old(contexts)[ep := old(contexts[ep]).(owner := Some(t), ready := false)])
    {
      hide Reaches, Enabled, NextState;
      ghost var s := Abs();
      MakesAcquire(s, t, ep, pending);
      contexts := contexts[ep := contexts[ep].(owner := Some(t), ready := false)];
      Note(s, t, Acquire);
    }

    // Pops the ready list and serves the endpoint found there.
    method ServeReady(t: Tid) returns (pendingCnt: nat)
      requires Valid() && t < |pc| && pc[t] == AtReadyList && Unlocked(contexts)
      modifies this, completionList, readyList
      ensures Valid() && OwnMoves(old(history), history, t)
      ensures t < |pc| && pc[t] == AtWait(pendingCnt) && Books() == old(Books())
      ensures ReadyServed(old(Shared()), Shared())
      ensures pendingCnt == if old(readyList.list) == [] then 0 else |old(readyList.list)| - 1
      ensures contexts.Keys == old(contexts).Keys && Unlocked(contexts)
    {
      hide Reaches, Enabled, NextState;
      ghost var s := Abs();
      MakesPopReady(s, t);
      ReadyIsKnown(history, s);
      var found;
      found, pendingCnt := readyList.PopFront();
      Note(s, t, PopReady);
      if found.Some? {
        ServeEndpoint(t, found.value, pendingCnt);
      }
    }

    // Asks the kernel for events.
    method TakeEvents(t: Tid, ghost pending: nat) returns (evts: seq<Event>)
      requires Valid() && t < |pc| && pc[t] == AtWait(pending) && pending < MAX_READY_LIST_LEN
      modifies this
      ensures Valid() && history == old(history) + [Move(t, Wait(evts))] && Books() == old(Books())
      ensures t < |pc| && pc[t] == if evts == [] then Idle else Handling(evts)
      ensures Offered(contexts, old(armed), evts) && Known(contexts, evts) && |evts| <= 128
      ensures Shared() == old(Shared()).(armed := Disarm(old(armed), evts))
    {
      hide Reaches, Enabled, NextState, Reportable, Disarm;
      ghost var s := Abs();
      evts := EpollWait();
      SameKernel(s, evts);
      MakesWait(s, t, pending, evts);
      Note(s, t, Wait(evts));
    }

    // Asks the kernel for events, unless the ready list is too long already, and handles them.
    method WaitForEvents(t: Tid, pendingCnt: nat) returns (status: RunningStatus, ghost events: seq<Event>)
      requires Valid() && t < |pc| && pc[t] == AtWait(pendingCnt) && Unlocked(contexts)
      modifies this, completionList, readyList
      ensures Valid() && Quiet(t) && OwnMoves(old(history), history, t)
      ensures contexts.Keys == old(contexts).Keys
      ensures Waited(old(Shared()), pendingCnt, events, Shared()) && Books() == old(Books())
      ensures status == TimedOut <==> pendingCnt < 10240 && events == []
      ensures pendingCnt >= 10240 ==> Shared() == old(Shared())
      ensures |events| <= 128
      ensures |old(history)| < |history|
      ensures status == TimedOut <==> history[|history| - 1].a == Wait([])
    {
      hide Reaches, Enabled, NextState, Reportable, AllHandled, Disarm, Offered;
      if pendingCnt >= MAX_READY_LIST_LEN {
        MakesSkipWait(Abs(), t, pendingCnt);
        Note(Abs(), t, SkipWait);
        return Normal, [];
      }
      var evts := TakeEvents(t, pendingCnt);
      if evts == [] {
        NoneHandled(Shared());
        return TimedOut, evts;
      }
      ghost var h := history;
      HandleEvents(t, evts);
      OwnMore(old(history), h, history, t);
      return Normal, evts;
    }

    // Handles all reported events in turn.
    method HandleEvents(t: Tid, evts: seq<Event>)
      requires Valid() && t < |pc| && pc[t] == Handling(evts) && Unlocked(contexts) && Known(contexts, evts)
      modifies this, completionList, readyList
      ensures Valid() && Quiet(t) && OwnMoves(old(history), history, t)
      ensures |old(history)| < |history| && history[|history| - 1].a == HandleDone
      ensures Shared() == AllHandled(old(Shared()), evts) && Books() == old(Books())
      ensures contexts.Keys == old(contexts).Keys
    {
      hide Reaches, Enabled, NextState;
      ghost var b, h0 := Shared(), history;
      var i := 0;
      while i < |evts|
        invariant i <= |evts| && Valid() && OwnMoves(h0, history, t)
        invariant t < |pc| && pc[t] == Handling(evts[i..]) && Books() == old(Books())
        invariant contexts.Keys == old(contexts).Keys && Unlocked(contexts)
        invariant Known(contexts, evts[i..]) && AllHandled(Shared(), evts[i..]) == AllHandled(b, evts)
      {
        ghost var h := history;
        assert evts[i..][1..] == evts[i + 1..];
        HandleEvent(t, evts[i..]);
        OwnMore(h0, h, history, t);
        i := i + 1;
      }
      assert evts[i..] == [];
      ghost var s := Abs();
      MakesHandleDone(s, t);
      Note(s, t, HandleDone);
    }

    // One round of a worker: deliver, serve, wait.
    method RunOnce(t: Tid) returns (status: RunningStatus, reported: Option<Status>)
      requires Valid() && Quiet(t)
      modifies this, completionList, readyList
      ensures Valid() && Quiet(t) && OwnMoves(old(history), history, t)
      ensures contexts.Keys == old(contexts).Keys
      ensures exists m, events ::
        && RoundDone(old(Shared()), m, events, Shared())
        && (status == TimedOut <==> events == [] && |m.readyList| < 10240)
      ensures var done := if old(completionList.list) == [] then [] else [old(completionList.list)[0]];
        Books() == old(Books()).(popped := old(popped) + done, called := old(called) + done)
      ensures |old(history)| < |history| && history[|old(history)|].a == PopCompleted
      ensures status == TimedOut <==> history[|history| - 1].a == Wait([])
      ensures reported == if old(completionList.list) == [] then None else Some(Report(old(completionList.list)[0]))
      ensures reported.Some? ==> ToldAs(old(completionList.list)[0], reported.value)
    {
      hide Reaches, Enabled, NextState, Waited, ReadyServed, ToldAs;
      reported := DeliverOne(t);
      ghost var b := Shared();
      var pendingCnt := ServeReady(t);
      ghost var m := Shared();
      ghost var events;
      status, events := WaitForEvents(t, pendingCnt);
      ServedEntries(b, m);
      assert RoundDone(old(Shared()), m, events, Shared());
    }
  }

  lemma ReadyIsKnown(ms: seq<Move>, s: State)
    requires Reaches(ms, s)
    ensures forall ep :: ep in s.readyList ==> ep in s.ctx
  {
    hide Reaches;
    ReachableInv(ms, s);
  }

  lemma SameKernel(s: State, events: seq<Event>)
    requires Offered(s.ctx, s.armed, events)
    ensures Reportable(s, events) && Known(s.ctx, events) && |events| <= 128
  {
  }

  lemma ServedEntries(b: Board, m: Board)
    requires ReadyServed(b, m)
    ensures |m.readyList| == if b.readyList == [] then 0 else |b.readyList| - 1
  {
  }

  lemma NoneHandled(b: Board)
    ensures Known(b.contexts, []) && AllHandled(b, []) == b
  {
  }

  lemma HeldByNone(contexts: map<Ep, Ctx>, ep: Ep)
    requires Unlocked(contexts) && ep in contexts
    ensures contexts[ep].owner == None
  {
  }

  lemma StillUnlocked(contexts: map<Ep, Ctx>, ep: Ep, c: Ctx)
    requires Unlocked(contexts) && c.owner == None
    ensures Unlocked(contexts[ep := c])
  {
  }

  // Locking, serving the queues, rearming and unlocking make up the service of an endpoint.
  lemma ServiceDone(b: Board, b1: Board, b2: Board, r: Board, ep: Ep, t: Tid)
    requires ep in b.contexts && Unlocked(b.contexts)
    requires b1 == b.(contexts := b.contexts[ep := b.contexts[ep].(owner := Some(t), ready := false)])
    requires ep in b2.contexts && b1.completion <= b2.completion
    requires var c, d := b1.contexts[ep], b2.contexts[ep];
      && ServedBoth(c, b2.completion[|b1.completion|..], d)
      && b2 == b1.(contexts := b1.contexts[ep := c.(rd := d.rd, wr := d.wr)], completion := b2.completion)
    requires r == b2.(armed := Rearmed(b2.armed, ep, b2.contexts[ep]),
                      contexts := b2.contexts[ep := b2.contexts[ep].(owner := None)])
    ensures EndpointServed(b, ep, r) && r.contexts.Keys == b.contexts.Keys && Unlocked(r.contexts)
  {
    hide Served;
    assert r.contexts == b.contexts[ep := r.contexts[ep]];
  }

  // The outcomes of the reads, then those of the writes, make up the outcomes of the service.
  lemma BothServed(c: Ctx, list: seq<Overlapped>, outR: seq<Overlapped>, after: seq<Overlapped>, d: Ctx)
    requires list + outR <= after
    requires Served(c.rd, outR, d.rd) && Served(c.wr, after[|list + outR|..], d.wr)
    ensures list <= after && ServedBoth(c, after[|list|..], d)
  {
    var out := after[|list|..];
    assert |outR| == |c.rd| - |d.rd|;
    assert after[..|list + outR|] == list + outR;
    assert out[..|outR|] == outR && out[|outR|..] == after[|list + outR|..];
  }
}
