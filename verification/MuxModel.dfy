/**
 The queueing protocol of the epoll multiplexer as a state machine. Any number of threads run runOnce or
 submit operations; every lock acquisition, release and shared-list access is a step of its own, and the
 kernel and the outcome of socket calls are chosen by the environment.
 */
module MuxModel {
  import opened Prelude

  const MAX_EVENTS_AT_ONCE := 128
  const MAX_READY_LIST_LEN := 10240
  const ECONNABORTED := 103

  type Ep = nat
  type Tid = nat

  datatype Dir = Rd | Wr

  datatype IoType = Recv | RecvFrom | Accept | Send | SendTo | Connect

  // The queue an operation is put on.
  function DirOf(t: IoType): Dir {
    if t.Recv? || t.RecvFrom? || t.Accept? then Rd else Wr
  }

  // One operation; id is its position in the order of submission.
  datatype Overlapped = Overlapped(id: nat, iotype: IoType, ep: Ep, provisioned: bool, errorcode: int, hasPeer: bool)

  function NewOverlapped(id: nat, iotype: IoType, ep: Ep): Overlapped {
    Overlapped(id, iotype, ep, false, 0, iotype.RecvFrom? || iotype.SendTo? || iotype.Accept?)
  }

  // What performIoLocked may do to the operation at the head of a queue: an operation rejected before it is
  // provisioned completes without an error code, a provisioned one completes with any code or would block.
  predicate PerformResult(o: Overlapped, r: Overlapped, completed: bool) {
    && r.id == o.id && r.iotype == o.iotype && r.ep == o.ep
    && (o.provisioned ==> r.provisioned)
    && (!r.provisioned ==> completed && r.errorcode == 0)
    && (!completed ==> r.errorcode == o.errorcode)
  }

  // The status handed to the callback.
  datatype Status = Success | InvalidOp | RecvError | SendError | AcceptError | ConnectError | ResolveError

  function Report(o: Overlapped): Status {
    if !o.provisioned then (if o.iotype.Connect? && o.hasPeer then ResolveError else InvalidOp)
    else if o.errorcode == 0 then Success
    else
      match o.iotype
      case Recv => RecvError
      case RecvFrom => RecvError
      case Send => SendError
      case SendTo => SendError
      case Accept => AcceptError
      case Connect => ConnectError
  }

  datatype Ctx = Ctx(rd: seq<Overlapped>, wr: seq<Overlapped>, ready: bool, owner: Option<Tid>)

  // One entry of epoll_wait's result.
  datatype Event = Event(ep: Ep, err: bool, dirs: set<Dir>)

  // Where a thread goes on after its critical section.
  datatype Next = ToIdle | ToWait(pending: nat) | ToEvents(events: seq<Event>)

  datatype Pc =
    | Idle
    | Calling(op: Overlapped)            // popped the completion list, callback not entered yet
    | AtReadyList
    | Holding(ep: Ep, pending: nat)      // popped the ready list, context not locked yet
    | Reading(ep: Ep, pending: nat)
    | ReadPosted(ep: Ep, pending: nat)   // completed head is on the completion list and still queued
    | Writing(ep: Ep, pending: nat)
    | WritePosted(ep: Ep, pending: nat)
    | Rearming(ep: Ep, pending: nat)
    | AtWait(pending: nat)
    | Handling(events: seq<Event>)
    | Flushing(ep: Ep, done: nat, rest: seq<Event>)
    | Appending(op: Overlapped)
    | Checking(ep: Ep)
    | Posting(ep: Ep, next: Next)        // ready is set, the ready list not yet pushed
    | Leaving(ep: Ep, next: Next)        // about to unlock

  datatype State = State(
    ctx: map<Ep, Ctx>,
    readyList: seq<Ep>,
    completion: seq<Overlapped>,
    armed: map<Ep, set<Dir>>,
    pc: seq<Pc>,
    submitted: seq<Overlapped>,
    popped: seq<Overlapped>,             // off the completion list, in this order
    called: seq<Overlapped>)             // callbacks entered, in this order

  predicate Initial(s: State) {
    && s.ctx == map[] && s.armed == map[]
    && s.readyList == [] && s.completion == [] && s.submitted == []
    && s.popped == [] && s.called == []
    && forall t :: 0 <= t < |s.pc| ==> s.pc[t] == Idle
  }

  datatype Action =
    | Join(ep: Ep)
    | PopCompleted
    | Call
    | PopReady
    | Acquire
    | Read(r: Overlapped, completed: bool)
    | ReadPop
    | ReadDone
    | Write(r: Overlapped, completed: bool)
    | WritePop
    | WriteDone
    | Rearm
    | Release
    | SkipWait
    | Wait(events: seq<Event>)
    | Handle
    | HandleDone
    | Flush
    | FlushDone
    | Submit(iotype: IoType, ep: Ep)
    | Append
    | Check
    | Post

  function Armed(s: State, ep: Ep): set<Dir> {
    if ep in s.armed then s.armed[ep] else {}
  }

  predicate Free(s: State, ep: Ep) {
    ep in s.ctx && s.ctx[ep].owner == None
  }

  // The kernel may report each armed endpoint once, in some of its armed directions or with an error.
  predicate Reportable(s: State, events: seq<Event>) {
    && |events| <= MAX_EVENTS_AT_ONCE
    && (forall i, j :: 0 <= i < j < |events| ==> events[i].ep != events[j].ep)
    && (forall i :: 0 <= i < |events| ==>
          && events[i].ep in s.ctx
          && Armed(s, events[i].ep) != {}
          && events[i].dirs <= Armed(s, events[i].ep)
          && (events[i].err || events[i].dirs != {}))
  }

  // Which endpoint's lock a thread holds.
  function LockedEp(pc: Pc): Option<Ep> {
    match pc
    case Reading(ep, _) => Some(ep)
    case ReadPosted(ep, _) => Some(ep)
    case Writing(ep, _) => Some(ep)
    case WritePosted(ep, _) => Some(ep)
    case Rearming(ep, _) => Some(ep)
    case Flushing(ep, _, _) => Some(ep)
    case Appending(op) => Some(op.ep)
    case Checking(ep) => Some(ep)
    case Posting(ep, _) => Some(ep)
    case Leaving(ep, _) => Some(ep)
    case _ => None
  }

  predicate Enabled(s: State, t: Tid, a: Action) {
    && t < |s.pc|
    && (LockedEp(s.pc[t]).Some? ==> LockedEp(s.pc[t]).value in s.ctx)
    && var pc := s.pc[t];
      match a
      case Join(ep) => pc.Idle? && ep !in s.ctx
      case PopCompleted => pc.Idle?
      case Call => pc.Calling?
      case PopReady => pc.AtReadyList?
      case Acquire => pc.Holding? && Free(s, pc.ep)
      case Read(r, completed) =>
        pc.Reading? && s.ctx[pc.ep].rd != [] && PerformResult(s.ctx[pc.ep].rd[0], r, completed)
      case ReadPop => pc.ReadPosted? && s.ctx[pc.ep].rd != []
      case ReadDone => pc.Reading? && s.ctx[pc.ep].rd == []
      case Write(r, completed) =>
        pc.Writing? && s.ctx[pc.ep].wr != [] && PerformResult(s.ctx[pc.ep].wr[0], r, completed)
      case WritePop => pc.WritePosted? && s.ctx[pc.ep].wr != []
      case WriteDone => pc.Writing? && s.ctx[pc.ep].wr == []
      case Rearm => pc.Rearming?
      case Release => pc.Leaving?
      case SkipWait => pc.AtWait? && pc.pending >= MAX_READY_LIST_LEN
      case Wait(events) => pc.AtWait? && pc.pending < MAX_READY_LIST_LEN && Reportable(s, events)
      case Handle => pc.Handling? && pc.events != [] && Free(s, pc.events[0].ep)
      case HandleDone => pc.Handling? && pc.events == []
      case Flush => pc.Flushing? && pc.done < |s.ctx[pc.ep].rd| + |s.ctx[pc.ep].wr|
      case FlushDone => pc.Flushing? && pc.done == |s.ctx[pc.ep].rd| + |s.ctx[pc.ep].wr|
      case Submit(_, ep) => pc.Idle? && Free(s, ep)
      case Append => pc.Appending?
      case Check => pc.Checking?
      case Post => pc.Posting?
  }

  function Goto(s: State, t: Tid, pc: Pc): State
    requires t < |s.pc|
  {
    s.(pc := s.pc[t := pc])
  }

  function After(next: Next): Pc {
    match next
    case ToIdle => Idle
    case ToWait(pending) => AtWait(pending)
    case ToEvents(events) => Handling(events)
  }

  // What epoll_wait leaves armed: a reported endpoint is disarmed.
  function Disarm(armed: map<Ep, set<Dir>>, events: seq<Event>): map<Ep, set<Dir>> {
    map ep | ep in armed && (forall i :: 0 <= i < |events| ==> events[i].ep != ep) :: armed[ep]
  }

  function Nonempty(c: Ctx): set<Dir> {
    (if c.rd != [] then {Rd} else {}) + (if c.wr != [] then {Wr} else {})
  }

  function NextState(s: State, t: Tid, a: Action): State
    requires Enabled(s, t, a)
  {
    var pc := s.pc[t];
    match a
    case Join(ep) => s.(ctx := s.ctx[ep := Ctx([], [], false, None)])
    case PopCompleted =>
      if s.completion == [] then Goto(s, t, AtReadyList)
      else
        Goto(s, t, Calling(s.completion[0]))
          .(completion := s.completion[1..], popped := s.popped + [s.completion[0]])
    case Call => Goto(s, t, AtReadyList).(called := s.called + [pc.op])
    case PopReady =>
      if s.readyList == [] then Goto(s, t, AtWait(0))
      else Goto(s, t, Holding(s.readyList[0], |s.readyList| - 1)).(readyList := s.readyList[1..])
    case Acquire =>
      Goto(s, t, Reading(pc.ep, pc.pending)).(ctx := s.ctx[pc.ep := s.ctx[pc.ep].(owner := Some(t), ready := false)])
    case Read(r, completed) =>
      var c := s.ctx[pc.ep];
      var s1 := s.(ctx := s.ctx[pc.ep := c.(rd := c.rd[0 := r])]);
      if completed then Goto(s1, t, ReadPosted(pc.ep, pc.pending)).(completion := s.completion + [r])
      else Goto(s1, t, Writing(pc.ep, pc.pending))
    case ReadPop =>
      var c := s.ctx[pc.ep];
      Goto(s, t, Reading(pc.ep, pc.pending)).(ctx := s.ctx[pc.ep := c.(rd := c.rd[1..])])
    case ReadDone => Goto(s, t, Writing(pc.ep, pc.pending))
    case Write(r, completed) =>
      var c := s.ctx[pc.ep];
      var s1 := s.(ctx := s.ctx[pc.ep := c.(wr := c.wr[0 := r])]);
      if completed then Goto(s1, t, WritePosted(pc.ep, pc.pending)).(completion := s.completion + [r])
      else Goto(s1, t, Rearming(pc.ep, pc.pending))
    case WritePop =>
      var c := s.ctx[pc.ep];
      Goto(s, t, Writing(pc.ep, pc.pending)).(ctx := s.ctx[pc.ep := c.(wr := c.wr[1..])])
    case WriteDone => Goto(s, t, Rearming(pc.ep, pc.pending))
    case Rearm =>
      var dirs := Nonempty(s.ctx[pc.ep]);
      Goto(s, t, Leaving(pc.ep, ToWait(pc.pending))).(armed := if dirs == {} then s.armed else s.armed[pc.ep := dirs])
    case Release =>
      Goto(s, t, After(pc.next)).(ctx := s.ctx[pc.ep := s.ctx[pc.ep].(owner := None)])
    case SkipWait => Goto(s, t, Idle)
    case Wait(events) =>
      Goto(s, t, if events == [] then Idle else Handling(events)).(armed := Disarm(s.armed, events))
    case Handle =>
      var e := pc.events[0];
      var c := s.ctx[e.ep].(owner := Some(t), ready := !e.err);
      Goto(s, t, if e.err then Flushing(e.ep, 0, pc.events[1..]) else Posting(e.ep, ToEvents(pc.events[1..])))
        .(ctx := s.ctx[e.ep := c])
    case HandleDone => Goto(s, t, Idle)
    case Flush =>
      var o := (s.ctx[pc.ep].rd + s.ctx[pc.ep].wr)[pc.done];
      Goto(s, t, Flushing(pc.ep, pc.done + 1, pc.rest)).(completion := s.completion + [o.(errorcode := ECONNABORTED)])
    case FlushDone =>
      Goto(s, t, Leaving(pc.ep, ToEvents(pc.rest))).(ctx := s.ctx[pc.ep := s.ctx[pc.ep].(rd := [], wr := [])])
    case Submit(iotype, ep) =>
      Goto(s, t, Appending(NewOverlapped(0, iotype, ep))).(ctx := s.ctx[ep := s.ctx[ep].(owner := Some(t))])
    case Append =>
      var o := pc.op.(id := |s.submitted|);
      var c := s.ctx[o.ep];
      var c' := if DirOf(o.iotype) == Rd then c.(rd := c.rd + [o]) else c.(wr := c.wr + [o]);
      Goto(s, t, Checking(o.ep)).(ctx := s.ctx[o.ep := c'], submitted := s.submitted + [o])
    case Check =>
      if s.ctx[pc.ep].ready then Goto(s, t, Leaving(pc.ep, ToIdle))
      else Goto(s, t, Posting(pc.ep, ToIdle)).(ctx := s.ctx[pc.ep := s.ctx[pc.ep].(ready := true)])
    case Post =>
      Goto(s, t, Leaving(pc.ep, pc.next)).(readyList := s.readyList + [pc.ep])
  }
}
