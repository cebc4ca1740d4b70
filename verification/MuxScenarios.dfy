/**
 Runs of two workers on one endpoint that meet the gaps of the protocol: callbacks in reverse, and the ready flag
 against its debug assertions.
 */
module MuxScenarios {
  import opened Prelude
  import opened MuxModel
  import opened MuxMoves
  import opened MuxInvariant
  import opened MuxTheorems
  import opened MuxCallbacks
  import opened MuxRuns
  import opened MuxReady

  function RecvOp(id: nat): Overlapped {
    NewOverlapped(id, Recv, 0)
  }

  // Thread t pops an entry of endpoint 0.
  function TakeRun(t: Tid): seq<Move> {
    [Move(t, PopCompleted), Move(t, PopReady)]
  }

  lemma Takes(ms: seq<Move>, s: State, t: Tid)
    requires Reaches(ms, s) && t < |s.pc| && s.pc[t] == Idle && s.completion == []
    requires s.readyList != [] && s.readyList[0] == 0
    ensures Reaches(ms + TakeRun(t),
                    s.(pc := s.pc[t := Holding(0, |s.readyList| - 1)], readyList := s.readyList[1..]))
  {
    hide Reaches, Enabled, NextState;
    MakesPopCompleted(s, t);
    var m1, s1 := ms + [Move(t, PopCompleted)], NextState(s, t, PopCompleted);
    ReachesMore(ms, s, t, PopCompleted);
    MakesPopReady(s1, t);
    ReachesMore(m1, s1, t, PopReady);
    assert NextState(s1, t, PopReady).pc == s.pc[t := Holding(0, |s.readyList| - 1)];
    assert m1 + [Move(t, PopReady)] == ms + TakeRun(t);
  }

  function Provisioned(o: Overlapped): Overlapped {
    o.(provisioned := true)
  }

  // The thread serves endpoint 0 and finds that the first read would block.
  function BlockRun(t: Tid, o: Overlapped): seq<Move> {
    [Move(t, Acquire), Move(t, Read(Provisioned(o), false)), Move(t, WriteDone), Move(t, Rearm), Move(t, Release)]
  }

  lemma Blocks(ms: seq<Move>, s: State, t: Tid, n: nat)
    requires Reaches(ms, s) && t < |s.pc| && s.pc[t] == Holding(0, n) && Free(s, 0)
    requires s.ctx[0].rd != [] && s.ctx[0].wr == []
    ensures var c := s.ctx[0];
      Reaches(ms + BlockRun(t, c.rd[0]), s.(
        pc := s.pc[t := AtWait(n)],
        ctx := s.ctx[0 := c.(rd := c.rd[0 := Provisioned(c.rd[0])], ready := false)],
        armed := s.armed[0 := {Rd}]))
  {
    hide Reaches, Enabled, NextState;
    var c, o := s.ctx[0], Provisioned(s.ctx[0].rd[0]);
    MakesAcquire(s, t, 0, n);
    var m1, s1 := ms + [Move(t, Acquire)], NextState(s, t, Acquire);
    ReachesMore(ms, s, t, Acquire);
    MakesRead(s1, t, 0, n, o, false);
    var m2, s2 := m1 + [Move(t, Read(o, false))], NextState(s1, t, Read(o, false));
    ReachesMore(m1, s1, t, Read(o, false));
    MakesWriteDone(s2, t, 0, n);
    var m3, s3 := m2 + [Move(t, WriteDone)], NextState(s2, t, WriteDone);
    ReachesMore(m2, s2, t, WriteDone);
    MakesRearm(s3, t, 0, n);
    assert Nonempty(s3.ctx[0]) == {Rd};
    var m4, s4 := m3 + [Move(t, Rearm)], NextState(s3, t, Rearm);
    ReachesMore(m3, s3, t, Rearm);
    MakesRelease(s4, t, 0, ToWait(n));
    ReachesMore(m4, s4, t, Release);
    var r := NextState(s4, t, Release);
    assert r.ctx == s.ctx[0 := c.(rd := c.rd[0 := o], ready := false)];
    assert r.pc == s.pc[t := AtWait(n)];
    assert r == s.(pc := r.pc, ctx := r.ctx, armed := s.armed[0 := {Rd}]);
    assert m4 + [Move(t, Release)] == ms + BlockRun(t, c.rd[0]);
  }

  const ReadEvent := Event(0, false, {Rd})

  // Thread 0 posts endpoint 0 for an event.
  function EventRun(): seq<Move> {
    [Move(0, Handle), Move(0, Post), Move(0, Release), Move(0, HandleDone)]
  }

  lemma Posts(ms: seq<Move>, s: State)
    requires Reaches(ms, s) && 0 < |s.pc| && s.pc[0] == Handling([ReadEvent]) && Free(s, 0)
    ensures Reaches(ms + EventRun(), s.(pc := s.pc[0 := Idle], readyList := s.readyList + [0],
                                        ctx := s.ctx[0 := s.ctx[0].(ready := true)]))
  {
    hide Reaches, Enabled, NextState;
    var events := [ReadEvent];
    assert events[1..] == [];
    MakesHandle(s, 0, events);
    var m1, s1 := ms + [Move(0, Handle)], NextState(s, 0, Handle);
    ReachesMore(ms, s, 0, Handle);
    MakesPost(s1, 0, 0, ToEvents([]));
    var m2, s2 := m1 + [Move(0, Post)], NextState(s1, 0, Post);
    ReachesMore(m1, s1, 0, Post);
    MakesRelease(s2, 0, 0, ToEvents([]));
    var m3, s3 := m2 + [Move(0, Release)], NextState(s2, 0, Release);
    ReachesMore(m2, s2, 0, Release);
    MakesHandleDone(s3, 0);
    ReachesMore(m3, s3, 0, HandleDone);
    var r := NextState(s3, 0, HandleDone);
    assert r.ctx == s.ctx[0 := s.ctx[0].(ready := true)];
    assert r.pc == s.pc[0 := Idle];
    assert r == s.(pc := r.pc, readyList := s.readyList + [0], ctx := r.ctx);
    assert m3 + [Move(0, HandleDone)] == ms + EventRun();
  }

  // ----- The ready flag against its assertions -----

  // Two workers, endpoint 0 holding reads, done with nothing.
  function Two(
    c: Ctx, readyList: seq<Ep>, armed: map<Ep, set<Dir>>, p0: Pc, p1: Pc, submitted: seq<Overlapped>): State
  {
    State(map[0 := c], readyList, [], armed, [p0, p1], submitted, [], [])
  }

  lemma Joins()
    ensures Reaches([Move(0, Join(0))], Two(Ctx([], [], false, None), [], map[], Idle, Idle, []))
  {
    hide NextState;
    var s := State(map[], [], [], map[], [Idle, Idle], [], [], []);
    MakesJoin(s, 0, 0);
    ReachesMore([], s, 0, Join(0));
    assert [] + [Move(0, Join(0))] == [Move(0, Join(0))];
  }

  // Worker 0 blocks on a first read and is about to wait.
  function FirstRead(): seq<Move> {
    [Move(0, Join(0))] + SubmitRun(1, 0, Recv, false) + TakeRun(0) + BlockRun(0, RecvOp(0))
  }

  lemma AfterFirstRead()
    ensures Reaches(FirstRead(), Two(Ctx([Provisioned(RecvOp(0))], [], false, None), [], map[0 := {Rd}],
                                     AtWait(0), Idle, [RecvOp(0)]))
  {
    hide Reaches;
    Joins();
    var subs, c := [RecvOp(0)], Ctx([RecvOp(0)], [], true, None);
    var m0, s0 := [Move(0, Join(0))], Two(Ctx([], [], false, None), [], map[], Idle, Idle, []);
    Submits(m0, s0, 1, 0, Recv);
    var m1, s1 := m0 + SubmitRun(1, 0, Recv, false), Two(c, [0], map[], Idle, Idle, subs);
    assert s0.ctx[0].rd + [RecvOp(0)] == c.rd && s0.submitted + [RecvOp(0)] == subs && s0.readyList + [0] == [0];
    assert s0.ctx[0 := c] == s1.ctx;
    assert Reaches(m1, s1);
    Takes(m1, s1, 0);
    var m2, s2 := m1 + TakeRun(0), Two(c, [], map[], Holding(0, 0), Idle, subs);
    assert s1.readyList[1..] == [] && s1.pc[0 := Holding(0, 0)] == s2.pc;
    assert Reaches(m2, s2);
    Blocks(m2, s2, 0, 0);
    var s3 := Two(Ctx([Provisioned(RecvOp(0))], [], false, None), [], map[0 := {Rd}], AtWait(0), Idle, subs);
    assert c.rd[0 := Provisioned(c.rd[0])] == s3.ctx[0].rd && s2.pc[0 := AtWait(0)] == s3.pc;
    assert s2.ctx[0 := s3.ctx[0]] == s3.ctx && s2.armed[0 := {Rd}] == s3.armed;
  }

  // Worker 1 submits a second read; worker 0 then waits and is told of the endpoint.
  function EventAtReady(): seq<Move> {
    FirstRead() + SubmitRun(1, 0, Recv, false) + [Move(0, Wait([ReadEvent]))]
  }

  // The endpoint with both reads queued and its flag set.
  const TwoReads := Ctx([Provisioned(RecvOp(0)), RecvOp(1)], [], true, None)

  lemma AfterEvent()
    ensures Reaches(EventAtReady(), Two(TwoReads, [0], map[], Handling([ReadEvent]), Idle, [RecvOp(0), RecvOp(1)]))
  {
    hide Reaches;
    AfterFirstRead();
    var m0, s0 := FirstRead(), Two(Ctx([Provisioned(RecvOp(0))], [], false, None), [], map[0 := {Rd}],
                                   AtWait(0), Idle, [RecvOp(0)]);
    Submits(m0, s0, 1, 0, Recv);
    var m1, s1 := m0 + SubmitRun(1, 0, Recv, false),
      Two(TwoReads, [0], map[0 := {Rd}], AtWait(0), Idle, [RecvOp(0), RecvOp(1)]);
    assert s0.ctx[0].rd + [RecvOp(1)] == TwoReads.rd && s0.submitted + [RecvOp(1)] == s1.submitted;
    assert s0.readyList + [0] == [0];
    assert s0.ctx[0 := TwoReads] == s1.ctx;
    assert Reaches(m1, s1);
    MakesWait(s1, 0, 0, [ReadEvent]);
    ReachesMore(m1, s1, 0, Wait([ReadEvent]));
    assert [ReadEvent][0].ep == 0;
    assert Disarm(s1.armed, [ReadEvent]) == map[];
    assert s1.pc[0 := Handling([ReadEvent])] == [Handling([ReadEvent]), Idle];
  }

  // A worker handles an event of an endpoint whose flag is set.
  lemma EventFindsFlagSet()
    ensures exists s ::
      && Reaches(EventAtReady(), s) && Enabled(s, 0, Handle) && s.pc[0].events[0].ep == 0
      && 0 in s.ctx && s.ctx[0].ready && Violates(s, 0, Handle)
  {
    hide Reaches, NextState;
    AfterEvent();
    var s := Two(TwoReads, [0], map[], Handling([ReadEvent]), Idle, [RecvOp(0), RecvOp(1)]);
    MakesHandle(s, 0, [ReadEvent]);
  }

  // The endpoint is then on the ready list twice.
  lemma ListedTwiceOver()
    ensures Reaches(EventAtReady() + EventRun(), Two(TwoReads, [0, 0], map[], Idle, Idle, [RecvOp(0), RecvOp(1)]))
  {
    hide Reaches;
    AfterEvent();
    var s := Two(TwoReads, [0], map[], Handling([ReadEvent]), Idle, [RecvOp(0), RecvOp(1)]);
    Posts(EventAtReady(), s);
    assert s.readyList + [0] == [0, 0] && s.pc[0 := Idle] == [Idle, Idle];
    assert s.ctx[0 := TwoReads] == s.ctx;
  }

  // Both workers pop it, and worker 0 serves it first.
  function ServedTwice(): seq<Move> {
    EventAtReady() + EventRun() + TakeRun(0) + TakeRun(1) + BlockRun(0, Provisioned(RecvOp(0)))
  }

  // A worker serves an endpoint whose flag is clear.
  lemma ServiceFindsFlagClear()
    ensures exists s ::
      && Reaches(ServedTwice(), s) && Enabled(s, 1, Acquire) && s.pc[1].ep == 0
      && 0 in s.ctx && !s.ctx[0].ready && Violates(s, 1, Acquire)
  {
    hide Reaches, NextState;
    ListedTwiceOver();
    var subs := [RecvOp(0), RecvOp(1)];
    var m0, s0 := EventAtReady() + EventRun(), Two(TwoReads, [0, 0], map[], Idle, Idle, subs);
    Takes(m0, s0, 0);
    var m1, s1 := m0 + TakeRun(0), Two(TwoReads, [0], map[], Holding(0, 1), Idle, subs);
    assert s0.readyList[1..] == [0] && s0.pc[0 := Holding(0, 1)] == s1.pc;
    assert Reaches(m1, s1);
    Takes(m1, s1, 1);
    var m2, s2 := m1 + TakeRun(1), Two(TwoReads, [], map[], Holding(0, 1), Holding(0, 0), subs);
    assert s1.readyList[1..] == [] && s1.pc[1 := Holding(0, 0)] == s2.pc;
    assert Reaches(m2, s2);
    Blocks(m2, s2, 0, 1);
    var s3 := Two(TwoReads.(ready := false), [], map[0 := {Rd}], AtWait(1), Holding(0, 0), subs);
    assert TwoReads.rd[0 := Provisioned(TwoReads.rd[0])] == TwoReads.rd;
    assert s2.ctx[0 := s3.ctx[0]] == s3.ctx && s2.armed[0 := {Rd}] == s3.armed && s2.pc[0 := AtWait(1)] == s3.pc;
    assert Reaches(m2 + BlockRun(0, Provisioned(RecvOp(0))), s3);
    MakesAcquire(s3, 1, 0, 0);
  }

  // ----- Callbacks in reverse -----

  // Worker 0 reads the first operation of endpoint 0 to its end.
  function ReadRun(o: Overlapped): seq<Move> {
    [Move(0, Read(Provisioned(o), true)), Move(0, ReadPop)]
  }

  lemma Reads(ms: seq<Move>, s: State, n: nat)
    requires Reaches(ms, s) && 0 < |s.pc| && s.pc[0] == Reading(0, n) && 0 in s.ctx && s.ctx[0].rd != []
    requires s.ctx[0].rd[0].errorcode == 0
    ensures var c := s.ctx[0];
      Reaches(ms + ReadRun(c.rd[0]), s.(ctx := s.ctx[0 := c.(rd := c.rd[1..])],
                                        completion := s.completion + [Provisioned(c.rd[0])]))
  {
    hide Reaches, Enabled, NextState;
    var c, o := s.ctx[0], Provisioned(s.ctx[0].rd[0]);
    MakesRead(s, 0, 0, n, o, true);
    var m1, s1 := ms + [Move(0, Read(o, true))], NextState(s, 0, Read(o, true));
    ReachesMore(ms, s, 0, Read(o, true));
    MakesReadPop(s1, 0, 0, n);
    ReachesMore(m1, s1, 0, ReadPop);
    var r := NextState(s1, 0, ReadPop);
    assert c.rd[0 := o][1..] == c.rd[1..];
    assert r.ctx == s.ctx[0 := c.(rd := c.rd[1..])];
    assert r.pc == s.pc;
    assert r == s.(ctx := r.ctx, completion := s.completion + [o]);
    assert m1 + [Move(0, ReadPop)] == ms + ReadRun(c.rd[0]);
  }

  // Worker 0 locks endpoint 0 for the entry it holds.
  lemma Locks(ms: seq<Move>, s: State, n: nat)
    requires Reaches(ms, s) && 0 < |s.pc| && s.pc[0] == Holding(0, n) && Free(s, 0)
    ensures Reaches(ms + [Move(0, Acquire)], s.(pc := s.pc[0 := Reading(0, n)],
                                                ctx := s.ctx[0 := s.ctx[0].(owner := Some(0), ready := false)]))
  {
    hide Reaches, Enabled, NextState;
    MakesAcquire(s, 0, 0, n);
    ReachesMore(ms, s, 0, Acquire);
  }

  // Worker 0 finds nothing more to do and goes idle.
  function QuitRun(): seq<Move> {
    [Move(0, ReadDone), Move(0, WriteDone), Move(0, Rearm), Move(0, Release), Move(0, Wait([]))]
  }

  lemma Quits(ms: seq<Move>, s: State, n: nat)
    requires Reaches(ms, s) && 0 < |s.pc| && s.pc[0] == Reading(0, n) && n < MAX_READY_LIST_LEN
    requires 0 in s.ctx && s.ctx[0].rd == [] && s.ctx[0].wr == []
    ensures Reaches(ms + QuitRun(), s.(pc := s.pc[0 := Idle], ctx := s.ctx[0 := s.ctx[0].(owner := None)]))
  {
    hide Reaches, Enabled, NextState;
    MakesReadDone(s, 0, 0, n);
    var m1, s1 := ms + [Move(0, ReadDone)], NextState(s, 0, ReadDone);
    ReachesMore(ms, s, 0, ReadDone);
    MakesWriteDone(s1, 0, 0, n);
    var m2, s2 := m1 + [Move(0, WriteDone)], NextState(s1, 0, WriteDone);
    ReachesMore(m1, s1, 0, WriteDone);
    MakesRearm(s2, 0, 0, n);
    var m3, s3 := m2 + [Move(0, Rearm)], NextState(s2, 0, Rearm);
    ReachesMore(m2, s2, 0, Rearm);
    MakesRelease(s3, 0, 0, ToWait(n));
    var m4, s4 := m3 + [Move(0, Release)], NextState(s3, 0, Release);
    ReachesMore(m3, s3, 0, Release);
    MakesWait(s4, 0, n, []);
    ReachesMore(m4, s4, 0, Wait([]));
    var r := NextState(s4, 0, Wait([]));
    assert Disarm(s.armed, []) == s.armed;
    assert r.pc == s.pc[0 := Idle];
    assert r == s.(pc := r.pc, ctx := s.ctx[0 := s.ctx[0].(owner := None)]);
    assert m4 + [Move(0, Wait([]))] == ms + QuitRun();
  }

  // Worker 1 submits two reads, worker 0 completes both.
  function BothDone(): seq<Move> {
    [Move(0, Join(0))] + SubmitRun(1, 0, Recv, false) + SubmitRun(1, 0, Recv, true) + TakeRun(0) + [Move(0, Acquire)]
    + ReadRun(RecvOp(0)) + ReadRun(RecvOp(1)) + QuitRun()
  }

  lemma AfterBothSubmitted()
    ensures Reaches([Move(0, Join(0))] + SubmitRun(1, 0, Recv, false) + SubmitRun(1, 0, Recv, true),
                    Two(Ctx([RecvOp(0), RecvOp(1)], [], true, None), [0], map[], Idle, Idle, [RecvOp(0), RecvOp(1)]))
  {
    hide Reaches;
    Joins();
    var c1, c2 := Ctx([RecvOp(0)], [], true, None), Ctx([RecvOp(0), RecvOp(1)], [], true, None);
    var m0, s0 := [Move(0, Join(0))], Two(Ctx([], [], false, None), [], map[], Idle, Idle, []);
    Submits(m0, s0, 1, 0, Recv);
    var m1, s1 := m0 + SubmitRun(1, 0, Recv, false), Two(c1, [0], map[], Idle, Idle, c1.rd);
    assert s0.ctx[0].rd + [RecvOp(0)] == c1.rd && s0.submitted + [RecvOp(0)] == c1.rd && s0.readyList + [0] == [0];
    assert s0.ctx[0 := c1] == s1.ctx;
    assert Reaches(m1, s1);
    Submits(m1, s1, 1, 0, Recv);
    assert c1.rd + [RecvOp(1)] == c2.rd && s1.readyList + [] == [0] && s1.ctx[0 := c2] == map[0 := c2];
  }

  lemma AfterBothDone()
    ensures Reaches(BothDone(), Two(Ctx([], [], false, None), [], map[], Idle, Idle, [RecvOp(0), RecvOp(1)])
                                  .(completion := [Provisioned(RecvOp(0)), Provisioned(RecvOp(1))]))
  {
    hide Reaches;
    AfterBothSubmitted();
    var subs := [RecvOp(0), RecvOp(1)];
    var c := Ctx(subs, [], true, None);
    var m0 := [Move(0, Join(0))] + SubmitRun(1, 0, Recv, false) + SubmitRun(1, 0, Recv, true);
    var s0 := Two(c, [0], map[], Idle, Idle, subs);
    Takes(m0, s0, 0);
    var m1, s1 := m0 + TakeRun(0), Two(c, [], map[], Holding(0, 0), Idle, subs);
    assert s0.readyList[1..] == [] && s0.pc[0 := Holding(0, 0)] == s1.pc;
    Locks(m1, s1, 0);
    var c2 := c.(ready := false, owner := Some(0));
    var m2, s2 := m1 + [Move(0, Acquire)], Two(c2, [], map[], Reading(0, 0), Idle, subs);
    assert s1.pc[0 := Reading(0, 0)] == s2.pc && s1.ctx[0 := c2] == s2.ctx;
    Reads(m2, s2, 0);
    var c3, o0, o1 := c2.(rd := [RecvOp(1)]), Provisioned(RecvOp(0)), Provisioned(RecvOp(1));
    var m3, s3 := m2 + ReadRun(RecvOp(0)),
      Two(c3, [], map[], Reading(0, 0), Idle, subs).(completion := [o0]);
    assert subs[1..] == [RecvOp(1)] && s2.ctx[0 := c3] == s3.ctx && s2.completion + [o0] == [o0];
    Reads(m3, s3, 0);
    var c4 := c3.(rd := []);
    var m4, s4 := m3 + ReadRun(RecvOp(1)),
      Two(c4, [], map[], Reading(0, 0), Idle, subs).(completion := [o0, o1]);
    assert c3.rd[1..] == [] && s3.ctx[0 := c4] == s4.ctx && [o0] + [o1] == [o0, o1];
    Quits(m4, s4, 0);
    var c5 := Ctx([], [], false, None);
    assert s4.ctx[0 := c5] == map[0 := c5] && s4.pc[0 := Idle] == [Idle, Idle];
  }

  // Worker 0 takes the first operation; before it enters the callback, worker 1 takes and calls the second.
  function Reversed(): seq<Move> {
    BothDone() + [Move(0, PopCompleted)] + [Move(1, PopCompleted), Move(1, Call), Move(0, Call)]
  }

  // The callbacks of one endpoint and direction are entered in the reverse of submission order.
  lemma CallbacksReversed()
    ensures exists r ::
      && Reaches(Reversed(), r) && r.submitted == [RecvOp(0), RecvOp(1)]
      && r.called == [Provisioned(RecvOp(1)), Provisioned(RecvOp(0))] && !InOrder(r, 0, Rd)
  {
    hide Reaches, InOrder;
    AfterBothDone();
    var o0, o1 := Provisioned(RecvOp(0)), Provisioned(RecvOp(1));
    var s := Two(Ctx([], [], false, None), [], map[], Idle, Idle, [RecvOp(0), RecvOp(1)]).(completion := [o0, o1]);
    MakesPopCompleted(s, 0);
    ReachesMore(BothDone(), s, 0, PopCompleted);
    var q := NextState(s, 0, PopCompleted);
    assert q.called + [o1, o0] == [o1, o0];
    PopBehindReverses(BothDone() + [Move(0, PopCompleted)], q, 0, Rd, 1, 0);
  }
}
