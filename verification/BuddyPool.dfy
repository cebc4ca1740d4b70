/**
 The pool as values: the set of in-use bits and one free chain per tier, with the
 recursive splitting (obtain) and coalescing (recycle) of the allocator.
 `Canonical` says that both are determined by the set of live blocks.
 */
module BuddyPool {
  import opened Prelude
  import opened BuddyGeometry

  datatype Pool = Pool(tiers: nat, bits: set<Block>, chains: seq<seq<nat>>)

  ghost predicate WellShaped(p: Pool) {
    p.tiers > 0 && |p.chains| == p.tiers
  }

  // ----- Transitions -----

  function Without(s: seq<nat>, b: nat): seq<nat> {
    if s == [] then []
    else if s[0] == b then s[1..]
    else [s[0]] + Without(s[1..], b)
  }

  function PopFree(p: Pool, tier: nat): Pool
    requires tier < |p.chains| && p.chains[tier] != []
  {
    p.(bits := p.bits + {Block(tier, p.chains[tier][0])},
       chains := p.chains[tier := p.chains[tier][1..]])
  }

  function PushFree(p: Pool, x: Block): Pool
    requires x.tier < |p.chains|
  {
    p.(bits := p.bits - {x}, chains := p.chains[x.tier := [x.id] + p.chains[x.tier]])
  }

  // The bit of x is cleared and its free buddy leaves its chain: both become the parent.
  function Merge(p: Pool, x: Block): Pool
    requires x.tier < |p.chains|
  {
    p.(bits := p.bits - {x},
       chains := p.chains[x.tier := Without(p.chains[x.tier], BuddyId(x.id))])
  }

  function Split(p: Pool, x: Block): Pool {
    p.(bits := p.bits + {LeftChild(x), RightChild(x)})
  }

  function Recycle(p: Pool, x: Block): (q: Pool)
    requires x.tier < |p.chains|
    ensures q.tiers == p.tiers && |q.chains| == |p.chains|
    decreases x.tier
  {
    if x.tier == 0 || Buddy(x) in p.bits
    then PushFree(p, x)
    else Recycle(Merge(p, x), Parent(x))
  }

  function Obtain(p: Pool, tier: nat): (r: (Pool, Option<nat>))
    requires tier < |p.chains|
    ensures r.0.tiers == p.tiers && |r.0.chains| == |p.chains|
    decreases tier
  {
    if p.chains[tier] != [] then (PopFree(p, tier), Some(p.chains[tier][0]))
    else if tier == 0 then (p, None)
    else
      var (q, up) := Obtain(p, tier - 1);
      if up.None? then (q, None)
      else
        var x := Block(tier - 1, up.value);
        (Recycle(Split(q, x), RightChild(x)), Some(LeftChild(x).id))
  }

  // ----- The canonical form -----

  ghost predicate InUse(live: set<Block>, x: Block) {
    exists y :: y in live && Under(y, x)
  }

  ghost predicate LiveOk(tiers: nat, live: set<Block>) {
    && (forall x :: x in live ==> InTree(tiers, x))
    && (forall x, y :: x in live && y in live && Under(x, y) ==> x == y)
  }

  ghost predicate BitsCanonical(p: Pool, live: set<Block>) {
    forall x :: x in p.bits <==> InTree(p.tiers, x) && InUse(live, x)
  }

  // A free block that is not part of a larger free block.
  ghost predicate FreeTop(p: Pool, x: Block) {
    InTree(p.tiers, x) && x !in p.bits && (x.tier == 0 || Buddy(x) in p.bits)
  }

  predicate OnChain(p: Pool, x: Block) {
    x.tier < |p.chains| && x.id in p.chains[x.tier]
  }

  ghost predicate NoDup(s: seq<nat>) {
    forall i, j :: 0 <= i < j < |s| ==> s[i] != s[j]
  }

  ghost predicate ChainsCanonical(p: Pool) {
    && (forall t :: 0 <= t < |p.chains| ==> NoDup(p.chains[t]))
    && (forall x :: OnChain(p, x) <==> FreeTop(p, x))
  }

  ghost predicate Canonical(p: Pool, live: set<Block>) {
    && WellShaped(p)
    && LiveOk(p.tiers, live)
    && BitsCanonical(p, live)
    && ChainsCanonical(p)
  }

  // ----- Consequences of the canonical form -----

  lemma ChainsShape(p: Pool, live: set<Block>)
    requires Canonical(p, live)
    ensures WellShaped(p)
  {
  }

  lemma LiveInBits(p: Pool, live: set<Block>, x: Block)
    requires Canonical(p, live) && x in live
    ensures x in p.bits
  {
    assert Under(x, x);
  }

  // Bits are closed upwards: an ancestor of an in-use block is in use.
  lemma BitsUpward(p: Pool, live: set<Block>, x: Block, a: Block)
    requires Canonical(p, live) && x in p.bits && Under(x, a)
    ensures a in p.bits
  {
    var y :| y in live && Under(y, x);
    UnderTrans(y, x, a);
    InTreeAncestor(p.tiers, x, a.tier);
  }

  lemma NothingBelowLive(p: Pool, live: set<Block>, x: Block, z: Block)
    requires Canonical(p, live) && x in live && Under(z, x) && z != x
    ensures z !in p.bits
  {
    if z in p.bits {
      var y :| y in live && Under(y, z);
      UnderTrans(y, z, x);
      UnderChild(z, x);
    }
  }

  // A free top and a live block are unrelated.
  lemma FreeTopOffLive(p: Pool, live: set<Block>, x: Block, y: Block)
    requires Canonical(p, live) && FreeTop(p, x) && y in live
    ensures !Under(x, y) && !Under(y, x)
  {
    LiveInBits(p, live, y);
    if Under(y, x) {
      BitsUpward(p, live, y, x);
    } else if Under(x, y) {
      ProperAncestorOfBuddy(x, y);
      NothingBelowLive(p, live, y, Buddy(x));
      assert false;
    }
  }

  // Two distinct free tops are unrelated.
  lemma FreeTopsUnrelated(p: Pool, live: set<Block>, x: Block, y: Block)
    requires Canonical(p, live) && FreeTop(p, x) && FreeTop(p, y) && x != y
    ensures !Under(x, y)
  {
    if Under(x, y) {
      ProperAncestorOfBuddy(x, y);
      BitsUpward(p, live, Buddy(x), y);
    }
  }

  // ----- Each elementary transition moves the live set -----

  lemma InUseAdd(live: set<Block>, x: Block, z: Block)
    ensures InUse(live + {x}, z) <==> InUse(live, z) || Under(x, z)
  {
    if InUse(live, z) {
      var y :| y in live && Under(y, z);
      assert y in live + {x};
    }
    if Under(x, z) {
      assert x in live + {x};
    }
  }

  lemma InUseRemove(live: set<Block>, x: Block, z: Block)
    requires x in live
    ensures InUse(live, z) <==> InUse(live - {x}, z) || Under(x, z)
  {
    InUseAdd(live - {x}, x, z);
    assert live - {x} + {x} == live;
  }

  // x is free and its buddy is not, so taking it sets no bit but its own.
  lemma PopCanonical(p: Pool, live: set<Block>, tier: nat)
    requires Canonical(p, live) && tier < p.tiers && p.chains[tier] != []
    ensures var x := Block(tier, p.chains[tier][0]);
      x !in live && FreeTop(p, x) && Canonical(PopFree(p, tier), live + {x})
  {
    var x := Block(tier, p.chains[tier][0]);
    var q := PopFree(p, tier);
    var c := p.chains[tier];
    assert OnChain(p, x);
    TakeLiveOk(p, live, x);
    TakeBits(p, live, x);
    assert NoDup(c);
    assert c == [c[0]] + c[1..];
    forall z ensures OnChain(q, z) <==> FreeTop(q, z) {
      assert OnChain(p, z) <==> FreeTop(p, z);
      BuddyFacts(x);
      BuddyFacts(z);
      if z.tier == tier {
        assert z.id in c <==> z.id == c[0] || z.id in c[1..];
      }
    }
    forall t | 0 <= t < |q.chains| ensures NoDup(q.chains[t]) {
      assert NoDup(p.chains[t]);
    }
  }

  lemma TakeLiveOk(p: Pool, live: set<Block>, x: Block)
    requires Canonical(p, live) && FreeTop(p, x)
    ensures x !in live
    ensures LiveOk(p.tiers, live + {x})
  {
    assert Under(x, x);
    forall y | y in live ensures !Under(x, y) && !Under(y, x) {
      FreeTopOffLive(p, live, x, y);
    }
  }

  lemma TakeBits(p: Pool, live: set<Block>, x: Block)
    requires Canonical(p, live) && FreeTop(p, x)
    ensures BitsCanonical(p.(bits := p.bits + {x}), live + {x})
  {
    assert Under(x, x);
    forall z ensures z in p.bits + {x} <==> InTree(p.tiers, z) && InUse(live + {x}, z) {
      InUseAdd(live, x, z);
      if Under(x, z) && z != x {
        ProperAncestorOfBuddy(x, z);
        BitsUpward(p, live, Buddy(x), z);
      }
      hide InUse, Under;
    }
  }

  lemma SplitCanonical(p: Pool, live: set<Block>, x: Block)
    requires Canonical(p, live) && x in live && x.tier + 1 < p.tiers
    ensures Canonical(Split(p, x), live - {x} + {LeftChild(x), RightChild(x)})
    ensures LeftChild(x) !in p.bits && RightChild(x) !in p.bits
  {
    var l, r := LeftChild(x), RightChild(x);
    var q := Split(p, x);
    var live' := live - {x} + {l, r};
    ChildrenUnder(x);
    LiveInBits(p, live, x);
    NothingBelowLive(p, live, x, l);
    NothingBelowLive(p, live, x, r);
    SplitLiveOk(p, live, x);
    forall z ensures z in q.bits <==> InTree(p.tiers, z) && InUse(live', z) {
      assert live' == (live - {x}) + {l} + {r};
      InUseAdd(live - {x}, l, z);
      InUseAdd(live - {x} + {l}, r, z);
      InUseRemove(live, x, z);
      if Under(l, z) && z != l {
        assert Under(Parent(l), z);
      }
      if Under(r, z) && z != r {
        assert Under(Parent(r), z);
      }
      if Under(x, z) {
        UnderTrans(l, x, z);
      }
    }
    forall z ensures OnChain(q, z) <==> FreeTop(q, z) {
      assert OnChain(p, z) <==> FreeTop(p, z);
      BuddyFacts(z);
    }
  }

  lemma SplitLiveOk(p: Pool, live: set<Block>, x: Block)
    requires Canonical(p, live) && x in live && x.tier + 1 < p.tiers
    ensures LiveOk(p.tiers, live - {x} + {LeftChild(x), RightChild(x)})
  {
    var l, r := LeftChild(x), RightChild(x);
    ChildrenUnder(x);
    forall y | y in live && y != x
      ensures !Under(y, l) && !Under(y, r) && !Under(l, y) && !Under(r, y)
    {
      if Under(y, l) {
        UnderTrans(y, l, x);
      }
      if Under(y, r) {
        UnderTrans(y, r, x);
      }
      LiveInBits(p, live, y);
      if Under(l, y) {
        RelatedToChild(l, y);
        NothingBelowLive(p, live, x, l);
        assert false;
      }
      if Under(r, y) {
        RelatedToChild(r, y);
        NothingBelowLive(p, live, x, r);
        assert false;
      }
    }
    assert !Under(l, r) && !Under(r, l);
  }

  lemma RelatedToChild(c: Block, y: Block)
    requires c.tier > 0 && Under(c, y)
    ensures y == c || Under(Parent(c), y)
  {
  }

  lemma ReleaseBits(p: Pool, live: set<Block>, x: Block)
    requires Canonical(p, live) && x in live
    requires x.tier == 0 || Buddy(x) in p.bits
    ensures BitsCanonical(p.(bits := p.bits - {x}), live - {x})
  {
    BuddyFacts(x);
    forall z ensures z in p.bits - {x} <==> InTree(p.tiers, z) && InUse(live - {x}, z) {
      InUseRemove(live, x, z);
      if z == x {
        assert !InUse(live - {x}, x);
      } else if Under(x, z) {
        ProperAncestorOfBuddy(x, z);
        var y :| y in live && Under(y, Buddy(x));
        if y == x {
          assert false;
        }
        UnderTrans(y, Buddy(x), z);
        assert y in live - {x};
      }
    }
  }

  lemma PushCanonical(p: Pool, live: set<Block>, x: Block)
    requires Canonical(p, live) && x in live
    requires x.tier == 0 || Buddy(x) in p.bits
    ensures Canonical(PushFree(p, x), live - {x})
    ensures !OnChain(p, x)
  {
    var q := PushFree(p, x);
    LiveInBits(p, live, x);
    BuddyFacts(x);
    ReleaseBits(p, live, x);
    assert !OnChain(p, x) by {
      assert OnChain(p, x) <==> FreeTop(p, x);
    }
    forall z ensures OnChain(q, z) <==> FreeTop(q, z) {
      assert OnChain(p, z) <==> FreeTop(p, z);
      BuddyFacts(z);
      if z == Buddy(x) && z.tier > 0 {
        assert z in p.bits;
      }
    }
    forall t | 0 <= t < |q.chains| ensures NoDup(q.chains[t]) {
      assert NoDup(p.chains[t]);
    }
  }

  lemma {:induction false} WithoutFacts(s: seq<nat>, b: nat)
    requires NoDup(s)
    ensures NoDup(Without(s, b))
    ensures forall c :: c in Without(s, b) <==> c in s && c != b
  {
    if s != [] {
      assert s == [s[0]] + s[1..];
      WithoutFacts(s[1..], b);
      if s[0] != b {
        forall c ensures c in Without(s, b) <==> c in s && c != b {
          assert c in Without(s, b) <==> c == s[0] || c in Without(s[1..], b);
        }
        assert s[0] !in s[1..];
      }
    }
  }

  lemma {:induction false} WithoutSplit(xs: seq<nat>, b: nat, ys: seq<nat>)
    requires b !in xs
    ensures Without(xs + [b] + ys, b) == xs + ys
  {
    if xs == [] {
      assert xs + [b] + ys == [b] + ys;
      assert xs + ys == ys;
    } else {
      assert (xs + [b] + ys)[1..] == xs[1..] + [b] + ys;
      WithoutSplit(xs[1..], b, ys);
      assert xs + ys == [xs[0]] + (xs[1..] + ys);
    }
  }

  // A live block and its free buddy become their live parent.
  lemma MergeCanonical(p: Pool, live: set<Block>, x: Block)
    requires Canonical(p, live) && x in live && x.tier > 0 && Buddy(x) !in p.bits
    ensures Canonical(Merge(p, x), live - {x} + {Parent(x)})
    ensures OnChain(p, Buddy(x)) && Parent(x) !in live
  {
    var q := Merge(p, x);
    var live' := live - {x} + {Parent(x)};
    LiveInBits(p, live, x);
    BuddyFacts(x);
    InTreeBuddy(p.tiers, x);
    assert OnChain(p, Buddy(x)) by {
      assert FreeTop(p, Buddy(x));
    }
    assert Under(x, Parent(x));
    MergeBits(p, live, x);
    WithoutFacts(p.chains[x.tier], BuddyId(x.id));
    forall z ensures OnChain(q, z) <==> FreeTop(q, z) {
      assert OnChain(p, z) <==> FreeTop(p, z);
      BuddyFacts(z);
      if z.tier == x.tier {
        assert z.id in q.chains[x.tier] <==> z.id in p.chains[x.tier] && z.id != BuddyId(x.id);
      }
    }
    forall t | 0 <= t < |q.chains| ensures NoDup(q.chains[t]) {
      assert NoDup(p.chains[t]);
    }
  }

  lemma MergeBits(p: Pool, live: set<Block>, x: Block)
    requires Canonical(p, live) && x in live && x.tier > 0 && Buddy(x) !in p.bits
    ensures Parent(x) !in live
    ensures LiveOk(p.tiers, live - {x} + {Parent(x)})
    ensures BitsCanonical(p.(bits := p.bits - {x}), live - {x} + {Parent(x)})
  {
    var u := Parent(x);
    LiveInBits(p, live, x);
    BuddyFacts(x);
    InTreeBuddy(p.tiers, x);
    assert Under(x, u);
    forall y | y in live && y != x ensures !Under(y, u) && !Under(u, y) {
      if Under(u, y) {
        UnderTrans(x, u, y);
      }
      if Under(y, u) {
        UnderChild(y, u);
        LiveInBits(p, live, y);
        if Under(y, Buddy(x)) {
          BitsUpward(p, live, y, Buddy(x));
        }
      }
    }
    forall z ensures z in p.bits - {x} <==> InTree(p.tiers, z) && InUse(live - {x} + {u}, z) {
      InUseRemove(live, x, z);
      InUseAdd(live - {x}, u, z);
      if z == x {
        assert !InUse(live - {x}, x);
      } else if Under(x, z) {
        RelatedToChild(x, z);
      } else if Under(u, z) {
        UnderTrans(x, u, z);
        assert false;
      }
    }
  }

  // ----- The recursive operations keep the canonical form -----

  lemma {:induction false} RecycleCanonical(p: Pool, live: set<Block>, x: Block)
    requires Canonical(p, live) && x in live
    ensures Canonical(Recycle(p, x), live - {x})
    decreases x.tier
  {
    if x.tier == 0 || Buddy(x) in p.bits {
      PushCanonical(p, live, x);
    } else {
      MergeCanonical(p, live, x);
      var live' := live - {x} + {Parent(x)};
      RecycleCanonical(Merge(p, x), live', Parent(x));
      assert live' - {Parent(x)} == live - {x};
    }
  }

  lemma {:induction false} ObtainCanonical(p: Pool, live: set<Block>, tier: nat)
    requires Canonical(p, live) && tier < p.tiers
    ensures var (q, r) := Obtain(p, tier);
      && (r.None? ==> q == p)
      && (r.Some? ==> Block(tier, r.value) !in live && Canonical(q, live + {Block(tier, r.value)}))
  {
    hide Canonical, Recycle, Split, FreeTop, PopFree;
    ChainsShape(p, live);
    if p.chains[tier] != [] {
      PopCanonical(p, live, tier);
    } else if tier > 0 {
      ObtainCanonical(p, live, tier - 1);
      var (q, up) := Obtain(p, tier - 1);
      if up.Some? {
        var x := Block(tier - 1, up.value);
        var l, r := LeftChild(x), RightChild(x);
        SplitCanonical(q, live + {x}, x);
        var live' := live + {x} - {x} + {l, r};
        RecycleCanonical(Split(q, x), live', r);
        ChildNotLive(q, live, x);
        assert live' - {r} == live + {l};
      }
    }
  }

  lemma ChildNotLive(q: Pool, live: set<Block>, x: Block)
    requires Canonical(q, live + {x}) && x !in live
    requires LeftChild(x) !in q.bits && RightChild(x) !in q.bits
    ensures LeftChild(x) !in live && RightChild(x) !in live
  {
    if LeftChild(x) in live {
      LiveInBits(q, live + {x}, LeftChild(x));
    }
    if RightChild(x) in live {
      LiveInBits(q, live + {x}, RightChild(x));
    }
  }
}
