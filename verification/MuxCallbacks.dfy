/**
 The order in which callbacks are entered. Operations leave the completion list in order, but a worker holds no
 lock between taking one and entering its callback, so another worker may overtake it.
 */
module MuxCallbacks {
  import opened Prelude
  import opened MuxModel
  import opened MuxMoves
  import opened MuxInvariant
  import opened MuxTheorems

  // ----- Every operation taken is called once -----

  function CallOf(pc: Pc): multiset<Overlapped> {
    if pc.Calling? then multiset{pc.op} else multiset{}
  }

  // The operations taken whose callbacks are still to be entered.
  function InCall(pcs: seq<Pc>): multiset<Overlapped> {
    if pcs == [] then multiset{} else CallOf(pcs[0]) + InCall(pcs[1..])
  }

  ghost predicate CallsOk(s: State) {
    multiset(s.called) + InCall(s.pc) == multiset(s.popped)
  }

  lemma {:induction false} InCallUpdate(pcs: seq<Pc>, t: nat, x: Pc)
    requires t < |pcs|
    ensures InCall(pcs[t := x]) + CallOf(pcs[t]) == InCall(pcs) + CallOf(x)
  {
    var qs := pcs[t := x];
    if t == 0 {
      assert qs[1..] == pcs[1..];
    } else {
      assert qs[1..] == pcs[1..][t - 1 := x] && qs[0] == pcs[0] && pcs[1..][t - 1] == pcs[t];
      InCallUpdate(pcs[1..], t - 1, x);
      var h, a, b := CallOf(pcs[0]), InCall(qs[1..]), InCall(pcs[1..]);
      assert h + a + CallOf(pcs[t]) == h + (a + CallOf(pcs[t]));
      assert h + b + CallOf(x) == h + (b + CallOf(x));
    }
  }

  lemma {:induction false} InCallMember(pcs: seq<Pc>, o: Overlapped)
    ensures o in InCall(pcs) <==> exists t :: 0 <= t < |pcs| && pcs[t] == Calling(o)
  {
    if pcs != [] {
      InCallMember(pcs[1..], o);
      if t :| 0 <= t < |pcs| && pcs[t] == Calling(o) {
        assert t > 0 ==> pcs[1..][t - 1] == Calling(o);
      }
      if t :| 0 <= t < |pcs[1..]| && pcs[1..][t] == Calling(o) {
        assert pcs[t + 1] == Calling(o);
      }
    }
  }

  // Only a pop makes a thread carry an operation, and only a call takes it off again.
  lemma StepCalls(s: State, t: Tid, a: Action)
    requires Enabled(s, t, a)
    ensures var r := NextState(s, t, a);
      && t < |s.pc| == |r.pc|
      && r.pc == s.pc[t := r.pc[t]]
      && (a.Call? ==> s.pc[t].Calling?)
      && r.called == s.called + (if a.Call? then [s.pc[t].op] else [])
      && CallOf(s.pc[t]) == (if a.Call? then multiset{s.pc[t].op} else multiset{})
      && CallOf(r.pc[t]) == (if a.PopCompleted? && s.completion != [] then multiset{s.completion[0]} else multiset{})
  {
    hide PerformResult, Reportable, Disarm, Nonempty, Report;
  }

  lemma CallsStep(s: State, t: Tid, a: Action)
    requires CallsOk(s) && Enabled(s, t, a)
    ensures CallsOk(NextState(s, t, a))
  {
    hide NextState, Enabled, InCall, PostedBy;
    var r := NextState(s, t, a);
    StepCalls(s, t, a);
    StepLists(s, t, a);
    InCallUpdate(s.pc, t, r.pc[t]);
    var x, y := CallOf(s.pc[t]), CallOf(r.pc[t]);
    assert multiset(r.called) == multiset(s.called) + x;
    assert multiset(r.popped) == multiset(s.popped) + y;
    Exchange(multiset(s.called), x, y, InCall(s.pc), InCall(r.pc));
  }

  lemma Exchange<T>(c: multiset<T>, x: multiset<T>, y: multiset<T>, a: multiset<T>, b: multiset<T>)
    requires b + x == a + y
    ensures c + x + b == c + a + y
  {
    assert c + x + b == c + (b + x);
    assert c + a + y == c + (a + y);
  }

  lemma {:induction false} CallsReachable(ms: seq<Move>, s: State)
    requires Reaches(ms, s)
    ensures CallsOk(s)
    decreases |ms|
  {
    hide NextState, Enabled, CallsOk;
    if ms == [] {
      NobodyCalls(s);
    } else {
      var last := ms[|ms| - 1];
      var r :| Reaches(ms[..|ms| - 1], r) && Enabled(r, last.t, last.a) && s == NextState(r, last.t, last.a);
      CallsReachable(ms[..|ms| - 1], r);
      CallsStep(r, last.t, last.a);
    }
  }

  lemma NobodyCalls(s: State)
    requires Initial(s)
    ensures CallsOk(s)
  {
    forall o ensures o !in InCall(s.pc) {
      InCallMember(s.pc, o);
    }
    assert InCall(s.pc) == multiset{};
  }

  ghost predicate DistinctIds(s: seq<Overlapped>) {
    forall i, j :: 0 <= i < j < |s| ==> s[i].id != s[j].id
  }

  lemma {:induction false} DistinctCount(s: seq<Overlapped>, o: Overlapped)
    requires DistinctIds(s)
    ensures multiset(s)[o] <= 1
  {
    if s != [] {
      DistinctCount(s[1..], o);
      assert s == [s[0]] + s[1..];
      forall j | 0 <= j < |s[1..]| ensures s[1..][j] != s[0] {
        assert s[1..][j] == s[j + 1];
      }
    }
  }

  lemma SameId(s: seq<Overlapped>, x: Overlapped, y: Overlapped)
    requires DistinctIds(s) && x in s && y in s && x.id == y.id
    ensures x == y
  {
  }

  lemma CountsTwice(s: seq<Overlapped>, i: nat, j: nat)
    requires i < j < |s| && s[i] == s[j]
    ensures multiset(s)[s[i]] >= 2
  {
    assert s == s[..j] + [s[j]] + s[j + 1..];
    assert s[..j][i] == s[i];
  }

  lemma {:induction false} InCallTwice(pcs: seq<Pc>, u: nat, v: nat, o: Overlapped)
    requires u < v < |pcs| && pcs[u] == pcs[v] == Calling(o)
    ensures InCall(pcs)[o] >= 2
  {
    if u > 0 {
      InCallTwice(pcs[1..], u - 1, v - 1, o);
    } else {
      assert pcs[1..][v - 1] == Calling(o);
      InCallMember(pcs[1..], o);
    }
  }

  // Where an operation taken can be: called, or with exactly one thread that is about to call it.
  lemma CalledFacts(s: State)
    requires CallsOk(s) && DistinctIds(s.popped)
    ensures DistinctIds(s.called)
    ensures forall o :: o in s.called ==> o in s.popped
    ensures forall u :: 0 <= u < |s.pc| && s.pc[u].Calling? ==> s.pc[u].op in s.popped && s.pc[u].op !in s.called
    ensures forall u, v :: 0 <= u < v < |s.pc| && s.pc[u].Calling? && s.pc[v].Calling? ==>
      s.pc[u].op.id != s.pc[v].op.id
    ensures forall o :: o in s.popped ==> o in s.called || exists u :: 0 <= u < |s.pc| && s.pc[u] == Calling(o)
  {
    var c, k, p := multiset(s.called), InCall(s.pc), multiset(s.popped);
    forall o ensures c[o] + k[o] == p[o] <= 1 && (o in k <==> exists u :: 0 <= u < |s.pc| && s.pc[u] == Calling(o)) {
      assert (c + k)[o] == p[o];
      DistinctCount(s.popped, o);
      InCallMember(s.pc, o);
    }
    forall o | o in s.called || o in k ensures o in s.popped {
      assert o in p;
    }
    forall i, j | 0 <= i < j < |s.called| ensures s.called[i].id != s.called[j].id {
      if s.called[i].id == s.called[j].id {
        SameId(s.popped, s.called[i], s.called[j]);
        CountsTwice(s.called, i, j);
      }
    }
    forall u | 0 <= u < |s.pc| && s.pc[u].Calling? ensures s.pc[u].op in s.popped && s.pc[u].op !in s.called {
      assert s.pc[u] == Calling(s.pc[u].op);
    }
    forall u, v | 0 <= u < v < |s.pc| && s.pc[u].Calling? && s.pc[v].Calling?
      ensures s.pc[u].op.id != s.pc[v].op.id
    {
      if s.pc[u].op.id == s.pc[v].op.id {
        assert s.pc[u] == Calling(s.pc[u].op) && s.pc[v] == Calling(s.pc[v].op);
        SameId(s.popped, s.pc[u].op, s.pc[v].op);
        InCallTwice(s.pc, u, v, s.pc[u].op);
      }
    }
    forall o | o in s.popped ensures o in s.called || o in k {
      assert o in p;
    }
  }

  lemma ReachableCalls(ms: seq<Move>, s: State)
    requires Reaches(ms, s)
    ensures CallsOk(s) && DistinctIds(s.popped)
  {
    hide Reaches, CallsOk;
    CallsReachable(ms, s);
    forall i, j | 0 <= i < j < |s.popped| ensures s.popped[i].id != s.popped[j].id {
      PoppedOnce(ms, s, i, j);
    }
  }

  // No callback is entered twice for one operation.
  lemma CalledOnce(ms: seq<Move>, s: State, i: nat, j: nat)
    requires Reaches(ms, s) && i < j < |s.called|
    ensures s.called[i].id != s.called[j].id
  {
    hide Reaches, CallsOk;
    ReachableCalls(ms, s);
    CalledFacts(s);
  }

  // Every callback is for an operation that was submitted, as it was submitted.
  lemma CalledWasSubmitted(ms: seq<Move>, s: State, i: nat)
    requires Reaches(ms, s) && i < |s.called|
    ensures s.called[i].id < |s.submitted| && SameOperation(s.submitted[s.called[i].id], s.called[i])
  {
    hide Reaches, CallsOk;
    ReachableCalls(ms, s);
    CalledFacts(s);
    assert s.called[i] in s.called;
    var k :| 0 <= k < |s.popped| && s.popped[k] == s.called[i];
    PoppedWasSubmitted(ms, s, k);
  }

  // With every thread between calls, all operations taken have been called.
  lemma QuietMeansCalled(ms: seq<Move>, s: State)
    requires Reaches(ms, s) && forall t :: 0 <= t < |s.pc| ==> !s.pc[t].Calling?
    ensures multiset(s.called) == multiset(s.popped)
  {
    hide Reaches;
    CallsReachable(ms, s);
    forall o ensures o !in InCall(s.pc) {
      InCallMember(s.pc, o);
    }
    assert InCall(s.pc) == multiset{};
  }

  // ----- The order of one endpoint and direction -----

  // The callbacks entered are for the first so many operations taken, in order.
  ghost predicate InOrder(s: State, ep: Ep, d: Dir) {
    Stamps(s.called, ep, d) <= Stamps(s.popped, ep, d)
  }

  // Thread u is about to call an operation of ep and d.
  predicate CallsFor(pc: Pc, ep: Ep, d: Dir) {
    pc.Calling? && Belongs(pc.op, ep, d)
  }

  // Thread t calls while another thread still carries an earlier operation of the same endpoint and direction.
  ghost predicate Overtakes(s: State, t: Tid, ep: Ep, d: Dir) {
    && t < |s.pc| && CallsFor(s.pc[t], ep, d)
    && exists u :: 0 <= u < |s.pc| && CallsFor(s.pc[u], ep, d) && s.pc[u].op.id < s.pc[t].op.id
  }

  lemma {:induction false} StampWitness(s: seq<Overlapped>, ep: Ep, d: Dir, k: Stamp)
    requires k in Stamps(s, ep, d)
    ensures exists o :: o in s && Belongs(o, ep, d) && StampOf(o) == k
  {
    if k in Stamps(s[1..], ep, d) {
      StampWitness(s[1..], ep, d, k);
    } else {
      assert s[0] in s;
    }
  }

  // An operation carried by a thread is among those taken, behind all that were called.
  lemma CarriedIsBehind(s: State, ep: Ep, d: Dir, u: Tid) returns (j: nat)
    requires CallsOk(s) && DistinctIds(s.popped) && InOrder(s, ep, d) && u < |s.pc| && CallsFor(s.pc[u], ep, d)
    ensures |Stamps(s.called, ep, d)| <= j < |Stamps(s.popped, ep, d)|
    ensures Stamps(s.popped, ep, d)[j] == StampOf(s.pc[u].op)
  {
    hide CallsOk, Stamps;
    CalledFacts(s);
    var x, c, p := s.pc[u].op, Stamps(s.called, ep, d), Stamps(s.popped, ep, d);
    var i :| 0 <= i < |s.popped| && s.popped[i] == x;
    StampListed(s.popped, ep, d, i);
    j :| 0 <= j < |p| && p[j] == StampOf(x);
    if j < |c| {
      assert c[j] == p[j] && c[j] in c;
      StampWitness(s.called, ep, d, c[j]);
      var y :| y in s.called && Belongs(y, ep, d) && StampOf(y) == c[j];
      SameId(s.popped, x, y);
    }
  }

  // The first operation taken and not called is carried by some thread.
  lemma NextIsCarried(s: State, ep: Ep, d: Dir) returns (u: Tid)
    requires CallsOk(s) && DistinctIds(s.popped) && InOrder(s, ep, d) && Ascending(Stamps(s.popped, ep, d))
    requires |Stamps(s.called, ep, d)| < |Stamps(s.popped, ep, d)|
    ensures u < |s.pc| && CallsFor(s.pc[u], ep, d)
    ensures StampOf(s.pc[u].op) == Stamps(s.popped, ep, d)[|Stamps(s.called, ep, d)|]
  {
    hide CallsOk, Stamps, Ascending;
    CalledFacts(s);
    var c, p := Stamps(s.called, ep, d), Stamps(s.popped, ep, d);
    var k := p[|c|];
    assert k in p;
    StampWitness(s.popped, ep, d, k);
    var x :| x in s.popped && Belongs(x, ep, d) && StampOf(x) == k;
    if x in s.called {
      var i :| 0 <= i < |s.called| && s.called[i] == x;
      StampListed(s.called, ep, d, i);
      var n :| 0 <= n < |c| && c[n] == k;
      AscendingAt(p, n, |c|);
    }
    u :| 0 <= u < |s.pc| && s.pc[u] == Calling(x);
  }

  // The next call keeps the order exactly if it overtakes nobody.
  lemma CallKeepsOrder(s: State, t: Tid, ep: Ep, d: Dir)
    requires CallsOk(s) && DistinctIds(s.popped) && InOrder(s, ep, d) && Ascending(Stamps(s.popped, ep, d))
    requires t < |s.pc| && CallsFor(s.pc[t], ep, d)
    ensures Stamps(s.called, ep, d) + [StampOf(s.pc[t].op)] <= Stamps(s.popped, ep, d) <==> !Overtakes(s, t, ep, d)
  {
    hide CallsOk, Stamps, Ascending;
    var c, p := Stamps(s.called, ep, d), Stamps(s.popped, ep, d);
    var j := CarriedIsBehind(s, ep, d, t);
    AscendingAt(p, |c|, j);
    if Overtakes(s, t, ep, d) {
      var u :| 0 <= u < |s.pc| && CallsFor(s.pc[u], ep, d) && s.pc[u].op.id < s.pc[t].op.id;
      var i := CarriedIsBehind(s, ep, d, u);
      AscendingAt(p, |c|, i);
      NotNext(c, p, StampOf(s.pc[t].op));
    } else {
      var u := NextIsCarried(s, ep, d);
      assert p[..|c| + 1] == c + [p[|c|]];
    }
  }

  lemma NotNext(c: seq<Stamp>, p: seq<Stamp>, k: Stamp)
    requires |c| < |p| && p[|c|].id < k.id
    ensures !(c + [k] <= p)
  {
    assert (c + [k])[|c|] == k;
  }

  lemma AscendingAt(p: seq<Stamp>, i: nat, j: nat)
    requires Ascending(p) && i <= j < |p|
    ensures p[i].id <= p[j].id && (p[i].id == p[j].id ==> i == j)
  {
  }

  // A run in which no call of the endpoint and direction overtakes another.
  ghost predicate Orderly(ms: seq<Move>, s: State, ep: Ep, d: Dir)
    decreases |ms|
  {
    if ms == [] then Initial(s)
    else
      var last := ms[|ms| - 1];
      exists r :: Orderly(ms[..|ms| - 1], r, ep, d)
        && Enabled(r, last.t, last.a) && s == NextState(r, last.t, last.a)
        && !(last.a.Call? && Overtakes(r, last.t, ep, d))
  }

  lemma {:induction false} OrderlyReaches(ms: seq<Move>, s: State, ep: Ep, d: Dir)
    requires Orderly(ms, s, ep, d)
    ensures Reaches(ms, s)
    decreases |ms|
  {
    hide NextState, Enabled, Overtakes;
    if ms != [] {
      var last := ms[|ms| - 1];
      var r :| Orderly(ms[..|ms| - 1], r, ep, d) && Enabled(r, last.t, last.a) && s == NextState(r, last.t, last.a);
      OrderlyReaches(ms[..|ms| - 1], r, ep, d);
      assert Reaches(ms[..|ms| - 1], r);
    }
  }

  // Everything the order of calls in a reachable state depends on.
  lemma OrderFacts(ms: seq<Move>, s: State, ep: Ep, d: Dir)
    requires Reaches(ms, s)
    ensures CallsOk(s) && DistinctIds(s.popped) && Ascending(Stamps(s.popped, ep, d))
  {
    hide Reaches, CallsOk;
    ReachableCalls(ms, s);
    ReachableInv(ms, s);
    assert Accounted(s, ep, d);
    StampsAscend(s.submitted, 0, ep, d);
    AscendingPrefix(Stamps(s.popped, ep, d), Stamps(s.submitted, ep, d));
  }

  lemma AscendingPrefix(p: seq<Stamp>, q: seq<Stamp>)
    requires p <= q && Ascending(q)
    ensures Ascending(p)
  {
    assert forall i :: 0 <= i < |p| ==> p[i] == q[i];
  }

  // One step: the order is kept or lost exactly by a call that overtakes, and never regained.
  lemma StepOrder(s: State, t: Tid, a: Action, ep: Ep, d: Dir)
    requires CallsOk(s) && DistinctIds(s.popped) && Ascending(Stamps(s.popped, ep, d))
    requires Enabled(s, t, a) && DistinctIds(NextState(s, t, a).popped)
    ensures InOrder(NextState(s, t, a), ep, d) <==> InOrder(s, ep, d) && !(a.Call? && Overtakes(s, t, ep, d))
  {
    hide NextState, Enabled, CallsOk, Stamps, Overtakes, PostedBy, DistinctIds;
    var r := NextState(s, t, a);
    StepCalls(s, t, a);
    StepLists(s, t, a);
    var c, p := Stamps(s.called, ep, d), Stamps(s.popped, ep, d);
    if a.Call? {
      var o := s.pc[t].op;
      StampsAppend(s.called, [o], ep, d);
      StampsOne(o, o, ep, d);
      if Belongs(o, ep, d) {
        if InOrder(s, ep, d) {
          CallKeepsOrder(s, t, ep, d);
        } else {
          assert c <= c + [StampOf(o)];
        }
      } else {
        NotOvertaking(s, t, ep, d);
      }
    } else if a.PopCompleted? && s.completion != [] {
      var o := s.completion[0];
      assert s.called + [] == s.called;
      StampsAppend(s.popped, [o], ep, d);
      StampsOne(o, o, ep, d);
      if Belongs(o, ep, d) {
        PopKeepsOrder(s, o, ep, d);
      }
    } else {
      assert s.called + [] == s.called;
    }
  }

  lemma NotOvertaking(s: State, t: Tid, ep: Ep, d: Dir)
    requires t < |s.pc| && !CallsFor(s.pc[t], ep, d)
    ensures !Overtakes(s, t, ep, d)
  {
  }

  // What has been called was taken before, so one more operation taken does not restore the order.
  lemma PopKeepsOrder(s: State, o: Overlapped, ep: Ep, d: Dir)
    requires CallsOk(s) && DistinctIds(s.popped) && DistinctIds(s.popped + [o]) && Belongs(o, ep, d)
    ensures Stamps(s.called, ep, d) <= Stamps(s.popped, ep, d) + [StampOf(o)] <==> InOrder(s, ep, d)
  {
    hide CallsOk, Stamps;
    CalledFacts(s);
    NewId(s.popped, o);
    var c, p := Stamps(s.called, ep, d), Stamps(s.popped, ep, d);
    var q := p + [StampOf(o)];
    assert p <= q;
    if c <= q && |c| > |p| {
      assert c[|p|] == q[|p|] && c[|p|] in c;
      StampWitness(s.called, ep, d, StampOf(o));
    } else if c <= q {
      assert c == q[..|c|] == p[..|c|];
    }
  }

  lemma NewId(s: seq<Overlapped>, o: Overlapped)
    requires DistinctIds(s + [o])
    ensures forall x :: x in s ==> x.id != o.id
  {
    forall x | x in s ensures x.id != o.id {
      var i :| 0 <= i < |s| && s[i] == x;
      assert (s + [o])[i] == x && (s + [o])[|s|] == o;
    }
  }

  // For every run: the callbacks of an endpoint and direction are entered in submission order, for the first
  // so many operations, if and only if no call overtakes another.
  lemma {:induction false} InOrderIffOrderly(ms: seq<Move>, s: State, ep: Ep, d: Dir)
    requires Reaches(ms, s)
    ensures InOrder(s, ep, d) <==> Orderly(ms, s, ep, d)
    decreases |ms|
  {
    hide NextState, Enabled, InOrder, Overtakes, CallsOk, DistinctIds, Ascending, Stamps;
    if ms == [] {
      InitiallyInOrder(s, ep, d);
    } else {
      var init, last := ms[..|ms| - 1], ms[|ms| - 1];
      if Orderly(ms, s, ep, d) {
        var r :| Orderly(init, r, ep, d) && Enabled(r, last.t, last.a) && s == NextState(r, last.t, last.a)
          && !(last.a.Call? && Overtakes(r, last.t, ep, d));
        OrderlyReaches(init, r, ep, d);
        InOrderIffOrderly(init, r, ep, d);
        OrderFacts(init, r, ep, d);
        OrderFacts(ms, s, ep, d);
        StepOrder(r, last.t, last.a, ep, d);
      }
      if InOrder(s, ep, d) {
        var r :| Reaches(init, r) && Enabled(r, last.t, last.a) && s == NextState(r, last.t, last.a);
        OrderFacts(init, r, ep, d);
        OrderFacts(ms, s, ep, d);
        StepOrder(r, last.t, last.a, ep, d);
        InOrderIffOrderly(init, r, ep, d);
        assert Orderly(init, r, ep, d);
      }
    }
  }

  lemma InitiallyInOrder(s: State, ep: Ep, d: Dir)
    requires Initial(s)
    ensures InOrder(s, ep, d)
  {
  }

  // ----- When workers keep out of each other's way -----

  // A run in which nobody takes an operation of the endpoint and direction while another one is carried.
  ghost predicate PopsApart(ms: seq<Move>, s: State, ep: Ep, d: Dir)
    decreases |ms|
  {
    if ms == [] then Initial(s)
    else
      var last := ms[|ms| - 1];
      exists r :: PopsApart(ms[..|ms| - 1], r, ep, d)
        && Enabled(r, last.t, last.a) && s == NextState(r, last.t, last.a)
        && !(last.a.PopCompleted? && PopsBehind(r, ep, d))
  }

  ghost predicate PopsBehind(s: State, ep: Ep, d: Dir) {
    s.completion != [] && Belongs(s.completion[0], ep, d)
    && exists u :: 0 <= u < |s.pc| && CallsFor(s.pc[u], ep, d)
  }

  ghost predicate OneCarrier(s: State, ep: Ep, d: Dir) {
    forall u, v :: 0 <= u < |s.pc| && 0 <= v < |s.pc| && CallsFor(s.pc[u], ep, d) && CallsFor(s.pc[v], ep, d) ==> u == v
  }

  lemma CarrierStep(s: State, t: Tid, a: Action, ep: Ep, d: Dir)
    requires OneCarrier(s, ep, d) && Enabled(s, t, a) && !(a.PopCompleted? && PopsBehind(s, ep, d))
    ensures OneCarrier(NextState(s, t, a), ep, d)
  {
    hide NextState, Enabled;
    StepCalls(s, t, a);
    var r := NextState(s, t, a);
    if CallsFor(r.pc[t], ep, d) {
      assert r.pc[t].op in CallOf(r.pc[t]);
    }
  }

  lemma {:induction false} ApartFacts(ms: seq<Move>, s: State, ep: Ep, d: Dir)
    requires PopsApart(ms, s, ep, d)
    ensures Orderly(ms, s, ep, d) && OneCarrier(s, ep, d)
    decreases |ms|
  {
    hide NextState, Enabled, PopsBehind;
    if ms == [] {
      assert OneCarrier(s, ep, d);
    } else {
      var init, last := ms[..|ms| - 1], ms[|ms| - 1];
      var r :| PopsApart(init, r, ep, d) && Enabled(r, last.t, last.a) && s == NextState(r, last.t, last.a)
        && !(last.a.PopCompleted? && PopsBehind(r, ep, d));
      ApartFacts(init, r, ep, d);
      CarrierStep(r, last.t, last.a, ep, d);
      assert !Overtakes(r, last.t, ep, d);
      assert Orderly(init, r, ep, d);
    }
  }

  // If no operation is taken while another of its endpoint and direction is carried, the order is kept.
  lemma ApartInOrder(ms: seq<Move>, s: State, ep: Ep, d: Dir)
    requires PopsApart(ms, s, ep, d)
    ensures InOrder(s, ep, d)
  {
    hide PopsApart, Orderly, InOrder;
    ApartFacts(ms, s, ep, d);
    OrderlyReaches(ms, s, ep, d);
    InOrderIffOrderly(ms, s, ep, d);
  }

  // And only then: as soon as one is, the two threads can enter their callbacks in reverse.
  lemma PopBehindReverses(ms: seq<Move>, s: State, ep: Ep, d: Dir, t: Tid, u: Tid)
    requires Reaches(ms, s) && t < |s.pc| && s.pc[t] == Idle && u < |s.pc| && CallsFor(s.pc[u], ep, d)
    requires s.completion != [] && Belongs(s.completion[0], ep, d)
    ensures exists r ::
      && Reaches(ms + [Move(t, PopCompleted), Move(t, Call), Move(u, Call)], r)
      && r.called == s.called + [s.completion[0], s.pc[u].op] && s.pc[u].op.id < s.completion[0].id
      && r.submitted == s.submitted && |r.pc| == |s.pc|
      && !InOrder(r, ep, d)
  {
    hide Reaches, Enabled, NextState, InOrder, Overtakes;
    var o, x := s.completion[0], s.pc[u].op;
    MakesPopCompleted(s, t);
    var s1 := NextState(s, t, PopCompleted);
    ReachesMore(ms, s, t, PopCompleted);
    var m1 := ms + [Move(t, PopCompleted)];
    CarriedIsEarlier(m1, s1, ep, d, t, u);
    MakesCall(s1, t, o);
    var s2 := NextState(s1, t, Call);
    ReachesMore(m1, s1, t, Call);
    var m2 := m1 + [Move(t, Call)];
    MakesCall(s2, u, x);
    var s3 := NextState(s2, u, Call);
    ReachesMore(m2, s2, u, Call);
    assert m2 + [Move(u, Call)] == ms + [Move(t, PopCompleted), Move(t, Call), Move(u, Call)];
    assert s3.called == s.called + [o, x];
    OrderFacts(m1, s1, ep, d);
    OrderFacts(m2, s2, ep, d);
    OrderFacts(m2 + [Move(u, Call)], s3, ep, d);
    IsOvertaken(s1, t, u, ep, d);
    StepOrder(s1, t, Call, ep, d);
    StepOrder(s2, u, Call, ep, d);
  }

  lemma IsOvertaken(s: State, t: Tid, u: Tid, ep: Ep, d: Dir)
    requires t < |s.pc| && u < |s.pc| && CallsFor(s.pc[t], ep, d) && CallsFor(s.pc[u], ep, d)
    requires s.pc[u].op.id < s.pc[t].op.id
    ensures Overtakes(s, t, ep, d)
  {
  }

  // The operation popped last has the greatest id of its endpoint and direction.
  lemma CarriedIsEarlier(ms: seq<Move>, s: State, ep: Ep, d: Dir, t: Tid, u: Tid)
    requires Reaches(ms, s) && t < |s.pc| && u < |s.pc| && t != u
    requires CallsFor(s.pc[t], ep, d) && CallsFor(s.pc[u], ep, d)
    requires s.popped != [] && s.popped[|s.popped| - 1] == s.pc[t].op
    ensures s.pc[u].op.id < s.pc[t].op.id
  {
    hide Reaches, CallsOk;
    ReachableCalls(ms, s);
    CalledFacts(s);
    var x := s.pc[u].op;
    var i :| 0 <= i < |s.popped| && s.popped[i] == x;
    PoppedInOrder(ms, s, ep, d);
  }

  // Only thread w ever takes operations off the completion list; the others may submit, or serve endpoints.
  ghost predicate OneTaker(ms: seq<Move>, w: Tid) {
    forall k :: 0 <= k < |ms| && ms[k].a.PopCompleted? ==> ms[k].t == w
  }

  ghost predicate OnlyCarrier(s: State, w: Tid) {
    forall u :: 0 <= u < |s.pc| && s.pc[u].Calling? ==> u == w
  }

  lemma TakerStep(s: State, t: Tid, a: Action, w: Tid)
    requires Enabled(s, t, a) && OnlyCarrier(s, w) && (a.PopCompleted? ==> t == w)
    ensures OnlyCarrier(NextState(s, t, a), w)
    ensures a.PopCompleted? ==> t < |s.pc| && s.pc[t] == Idle
  {
    hide NextState;
    StepCalls(s, t, a);
    var r := NextState(s, t, a);
    if r.pc[t].Calling? {
      assert r.pc[t].op in CallOf(r.pc[t]);
    }
  }

  lemma {:induction false} OneTakerApart(ms: seq<Move>, s: State, w: Tid, ep: Ep, d: Dir)
    requires Reaches(ms, s) && OneTaker(ms, w)
    ensures PopsApart(ms, s, ep, d) && OnlyCarrier(s, w)
    decreases |ms|
  {
    hide NextState, Enabled;
    if ms != [] {
      var init, last := ms[..|ms| - 1], ms[|ms| - 1];
      var r :| Reaches(init, r) && Enabled(r, last.t, last.a) && s == NextState(r, last.t, last.a);
      assert forall k :: 0 <= k < |init| ==> init[k] == ms[k];
      OneTakerApart(init, r, w, ep, d);
      TakerStep(r, last.t, last.a, w);
      assert last.a.PopCompleted? ==> !PopsBehind(r, ep, d);
    }
  }

  // A single worker never overtakes anybody, however many threads submit.
  lemma OneWorkerInOrder(ms: seq<Move>, s: State, w: Tid, ep: Ep, d: Dir)
    requires Reaches(ms, s) && OneTaker(ms, w)
    ensures InOrder(s, ep, d)
  {
    hide Reaches, PopsApart, InOrder;
    OneTakerApart(ms, s, w, ep, d);
    ApartInOrder(ms, s, ep, d);
  }
}
