/** What the allocator promises, over every heap that any sequence of calls can reach. */
module BuddyTheorems {
  import opened Prelude
  import opened BuddyGeometry
  import opened BuddyPool
  import opened BuddyHeap

  // ----- Runs -----

  datatype Call =
    | CallAlloc(size: u32)
    | CallDealloc(p: Ptr, size: u32)
    | CallFree(p: Ptr)
    | CallRealloc(p: Ptr, size: u32)
    | CallResetHwm

  function NoChains(tiers: nat): seq<seq<nat>> {
    seq(tiers, _ => [])
  }

  // The state before the constructor recycles the top block: that one block counts as held.
  function Unborn(tiers: nat): Pool
    requires 1 <= tiers
  {
    Pool(tiers, {Block(0, 0)}, NoChains(tiers))
  }

  function Initial(tiers: nat): Heap
    requires 1 <= tiers
  {
    Heap(Recycle(Unborn(tiers), Block(0, 0)), {}, 0, 0)
  }

  ghost predicate Legal(h: Heap, c: Call)
    requires WellShaped(h.pool)
  {
    match c
    case CallAlloc(_) => true
    case CallDealloc(p, size) => Owned(h, DeallocTarget(h, p, size))
    case CallFree(p) => Owned(h, Locate(h.pool, p))
    case CallRealloc(p, _) => Owned(h, Locate(h.pool, p))
    case CallResetHwm => true
  }

  ghost function Step(h: Heap, c: Call): Heap
    requires Inv(h) && Legal(h, c)
  {
    match c
    case CallAlloc(size) => Alloc(h, size).0
    case CallDealloc(p, size) => Dealloc(h, p, size)
    case CallFree(p) => Free(h, p)
    case CallRealloc(p, size) => Realloc(h, p, size).0
    case CallResetHwm => h.(hwm := 0)
  }

  // h is reached from a fresh allocator of `tiers` tiers by the calls cs, in order.
  ghost predicate Reaches(tiers: nat, cs: seq<Call>, h: Heap)
    requires 1 <= tiers <= MAX_TIERS
    decreases |cs|
  {
    if cs == [] then h == Initial(tiers)
    else
      exists g :: Reaches(tiers, cs[..|cs| - 1], g)
        && Inv(g) && Legal(g, cs[|cs| - 1]) && h == Step(g, cs[|cs| - 1])
  }

  lemma UnbornCanonical(tiers: nat)
    requires 1 <= tiers
    ensures Canonical(Unborn(tiers), {Block(0, 0)})
  {
    var p := Unborn(tiers);
    var root := Block(0, 0);
    forall x ensures x in p.bits <==> InTree(tiers, x) && InUse({root}, x) {
      if x == root {
        assert Under(root, root);
      }
    }
  }

  lemma InitialInv(tiers: nat)
    requires 1 <= tiers <= MAX_TIERS
    ensures Inv(Initial(tiers))
    ensures Initial(tiers).pool == Pool(tiers, {}, NoChains(tiers)[0 := [0]])
  {
    UnbornCanonical(tiers);
    var root := Block(0, 0);
    RecycleCanonical(Unborn(tiers), {root}, root);
    RecycleBytes(Unborn(tiers), {root}, root);
    EmptyChainsBytes(Unborn(tiers), tiers);
    assert {root} - {root} == {};
    assert Initial(tiers).pool == PushFree(Unborn(tiers), root);
    assert NoChains(tiers)[0] == [] && [0] + NoChains(tiers)[0] == [0];
  }

  lemma {:induction false} EmptyChainsBytes(p: Pool, n: nat)
    requires n <= p.tiers == |p.chains|
    requires forall t :: 0 <= t < n ==> p.chains[t] == []
    ensures FreeBytesTo(p, n) == 0
  {
    if n > 0 {
      EmptyChainsBytes(p, n - 1);
    }
  }

  lemma StepInv(h: Heap, c: Call)
    requires Inv(h) && Legal(h, c)
    ensures Inv(Step(h, c)) && Step(h, c).pool.tiers == h.pool.tiers
  {
    match c {
      case CallAlloc(size) => AllocInv(h, size);
      case CallDealloc(p, size) =>
        var x := DeallocTarget(h, p, size);
        if x.Some? {
          ReleaseInv(h, x.value);
        }
      case CallFree(p) =>
        var x := Locate(h.pool, p);
        if x.Some? {
          ReleaseInv(h, x.value);
        }
      case CallRealloc(p, size) => ReallocInv(h, p, size);
      case CallResetHwm =>
    }
  }

  // The invariant holds after every run of legal calls.
  lemma {:induction false} ReachableInv(tiers: nat, cs: seq<Call>, h: Heap)
    requires 1 <= tiers <= MAX_TIERS && Reaches(tiers, cs, h)
    ensures Inv(h) && h.pool.tiers == tiers
    decreases |cs|
  {
    if cs == [] {
      InitialInv(tiers);
    } else {
      var g :| Reaches(tiers, cs[..|cs| - 1], g)
        && Inv(g) && Legal(g, cs[|cs| - 1]) && h == Step(g, cs[|cs| - 1]);
      ReachableInv(tiers, cs[..|cs| - 1], g);
      StepInv(g, cs[|cs| - 1]);
    }
  }

  // ----- The shape of every reachable heap -----

  // A bit is set exactly when a live block lies at or below it.
  lemma BitmapIsCanonical(tiers: nat, cs: seq<Call>, h: Heap, x: Block)
    requires 1 <= tiers <= MAX_TIERS && Reaches(tiers, cs, h) && InTree(tiers, x)
    ensures x in h.pool.bits <==> exists y :: y in h.live && Under(y, x)
  {
    ReachableInv(tiers, cs, h);
    assert InUse(h.live, x) <==> exists y :: y in h.live && Under(y, x);
  }

  // A free chain lists, once each, the clear blocks whose buddy is set; so no two buddies are both free.
  lemma ChainsFollowBitmap(tiers: nat, cs: seq<Call>, h: Heap, t: nat)
    requires 1 <= tiers <= MAX_TIERS && Reaches(tiers, cs, h) && t < tiers
    ensures |h.pool.chains| == tiers
    ensures forall i, j :: 0 <= i < j < |h.pool.chains[t]| ==> h.pool.chains[t][i] != h.pool.chains[t][j]
    ensures forall b: nat :: b in h.pool.chains[t] <==>
      b < Pow2(t) && Block(t, b) !in h.pool.bits && (t == 0 || Block(t, BuddyId(b)) in h.pool.bits)
    ensures t > 0 ==> forall b :: b in h.pool.chains[t] ==> BuddyId(b) !in h.pool.chains[t]
  {
    ReachableInv(tiers, cs, h);
    assert NoDup(h.pool.chains[t]);
    forall b: nat
      ensures b in h.pool.chains[t] <==>
        b < Pow2(t) && Block(t, b) !in h.pool.bits && (t == 0 || Block(t, BuddyId(b)) in h.pool.bits)
    {
      var x := Block(t, b);
      assert Buddy(x) == Block(t, BuddyId(b));
      assert OnChain(h.pool, x) <==> FreeTop(h.pool, x);
    }
  }

  // Two runs that end with the same live blocks end with the same bitmap and, up to order, the same chains.
  lemma HistoryIndependent(tiers: nat, cs: seq<Call>, g: Heap, ds: seq<Call>, h: Heap)
    requires 1 <= tiers <= MAX_TIERS && Reaches(tiers, cs, g) && Reaches(tiers, ds, h)
    requires g.live == h.live
    ensures g.pool.bits == h.pool.bits && g.used == h.used
    ensures |g.pool.chains| == |h.pool.chains| == tiers
    ensures forall t :: 0 <= t < tiers ==> multiset(g.pool.chains[t]) == multiset(h.pool.chains[t])
  {
    ReachableInv(tiers, cs, g);
    ReachableInv(tiers, ds, h);
    forall x ensures x in g.pool.bits <==> x in h.pool.bits {
      assert x in g.pool.bits <==> InTree(tiers, x) && InUse(g.live, x);
      assert x in h.pool.bits <==> InTree(tiers, x) && InUse(h.live, x);
    }
    assert g.pool.bits == h.pool.bits;
    forall t | 0 <= t < tiers ensures multiset(g.pool.chains[t]) == multiset(h.pool.chains[t]) {
      ChainsFollowBitmap(tiers, cs, g, t);
      ChainsFollowBitmap(tiers, ds, h, t);
      NoDupSameElements(g.pool.chains[t], h.pool.chains[t]);
    }
  }

  lemma {:induction false} NoDupCount(s: seq<nat>, b: nat)
    requires NoDup(s)
    ensures multiset(s)[b] == if b in s then 1 else 0
  {
    if s != [] {
      assert s == [s[0]] + s[1..];
      NoDupCount(s[1..], b);
    }
  }

  lemma NoDupSameElements(s: seq<nat>, r: seq<nat>)
    requires NoDup(s) && NoDup(r) && forall b :: b in s <==> b in r
    ensures multiset(s) == multiset(r)
  {
    forall b ensures multiset(s)[b] == multiset(r)[b] {
      NoDupCount(s, b);
      NoDupCount(r, b);
    }
  }

  // Live blocks lie in the pool, are aligned to their size, and share no byte.
  lemma LiveBlocksApart(tiers: nat, cs: seq<Call>, h: Heap, x: Block, y: Block)
    requires 1 <= tiers <= MAX_TIERS && Reaches(tiers, cs, h)
    requires x in h.live && y in h.live
    ensures x.tier < tiers && 0 <= Start(tiers, x) < End(tiers, x) <= Capacity(tiers)
    ensures Start(tiers, x) % BlockSize(tiers, x.tier) == 0
    ensures y.tier < tiers
    ensures x != y ==> forall a :: !(HasByte(tiers, x, a) && HasByte(tiers, y, a))
  {
    ReachableInv(tiers, cs, h);
    InsidePool(tiers, x);
    AlignedStart(tiers, x);
    if x != y {
      UnrelatedApart(tiers, x, y);
    }
  }

  // The bytes in use are the live blocks', and the rest of the pool is on the free chains.
  lemma BytesConserved(tiers: nat, cs: seq<Call>, h: Heap)
    requires 1 <= tiers <= MAX_TIERS && Reaches(tiers, cs, h)
    ensures h.pool.tiers == |h.pool.chains| == tiers
    ensures forall x :: x in h.live ==> InTree(tiers, x)
    ensures h.used == LiveBytes(tiers, h.live)
    ensures h.used + FreeBytes(h.pool) == Capacity(tiers)
  {
    ReachableInv(tiers, cs, h);
  }

  lemma OnlyTopFree(c: seq<nat>, t: nat)
    requires NoDup(c)
    requires forall b: nat :: b in c <==> b < Pow2(t) && t == 0
    ensures c == if t == 0 then [0] else []
  {
    var r := if t == 0 then [0] else [];
    NoDupSameElements(c, r);
    assert |multiset(c)| == |c| && |multiset(r)| == |r|;
    if t == 0 {
      assert c[0] in multiset(c);
    }
  }

  // With nothing live every split has been undone, and the whole pool can be had again.
  lemma WholePoolReturns(tiers: nat, cs: seq<Call>, h: Heap)
    requires 1 <= tiers <= MAX_TIERS && Reaches(tiers, cs, h) && h.live == {}
    ensures h.pool == Initial(tiers).pool && h.used == 0
    ensures Alloc(h, Capacity(tiers)).1 == At(0)
  {
    ReachableInv(tiers, cs, h);
    InitialInv(tiers);
    assert h.pool.bits == {};
    forall t | 0 <= t < tiers ensures h.pool.chains[t] == if t == 0 then [0] else [] {
      ChainsFollowBitmap(tiers, cs, h, t);
      assert NoDup(h.pool.chains[t]);
      OnlyTopFree(h.pool.chains[t], t);
    }
    assert h.pool.chains == Initial(tiers).pool.chains;
    TierOfBlockSize(tiers, 0);
  }

  // ----- Allocation succeeds exactly when a large enough block is free -----

  lemma {:induction false} ObtainSucceeds(p: Pool, tier: nat)
    requires tier < |p.chains|
    ensures Obtain(p, tier).1.Some? <==> exists t :: 0 <= t <= tier && p.chains[t] != []
  {
    if p.chains[tier] == [] && tier > 0 {
      ObtainSucceeds(p, tier - 1);
      if t :| 0 <= t <= tier && p.chains[t] != [] {
        assert 0 <= t <= tier - 1;
      }
    }
  }

  lemma AllocComplete(h: Heap, size: nat)
    requires Inv(h)
    ensures Alloc(h, size).1 != Null <==> Available(h.pool) > 0 && size <= Available(h.pool)
  {
    var tiers := h.pool.tiers;
    FirstFreeFacts(h.pool, 0);
    var f := FirstFree(h.pool, 0);
    var r := TierOf(tiers, size);
    if r.Some? {
      ObtainSucceeds(h.pool, r.value);
      if f.Some? {
        if f.value <= r.value {
          BlockSizeMono(tiers, f.value, r.value);
        } else {
          BlockSizeMono(tiers, r.value + 1, f.value);
        }
      }
    } else if f.Some? {
      BlockSizeMono(tiers, 0, f.value);
    }
  }

  lemma RoomInParent(p: Pool, live: set<Block>, x: Block)
    requires Canonical(p, live) && InTree(p.tiers, x) && AllUnrelated(live, x) && x.tier > 0 && Buddy(x) !in p.bits
    ensures InTree(p.tiers, Parent(x)) && AllUnrelated(live, Parent(x))
  {
    InTreeBuddy(p.tiers, x);
    BuddyFacts(x);
    ChildrenUnder(Parent(x));
    assert !InUse(live, Buddy(x));
    forall y | y in live ensures Unrelated(y, Parent(x)) {
      assert !Under(y, Buddy(x));
      if Under(Parent(x), y) {
        UnderTrans(x, Parent(x), y);
      } else if Under(y, Parent(x)) {
        UnderChild(y, Parent(x));
      }
    }
  }

  // Coalescing wastes no room: some free block reaches up from every block that is unrelated to the live ones.
  lemma {:induction false} RoomIsFree(p: Pool, live: set<Block>, x: Block)
    requires Canonical(p, live) && InTree(p.tiers, x) && AllUnrelated(live, x)
    ensures exists t :: 0 <= t <= x.tier && p.chains[t] != []
    decreases x.tier
  {
    if x.tier == 0 || Buddy(x) in p.bits {
      assert FreeTop(p, x);
      assert OnChain(p, x);
    } else {
      RoomInParent(p, live, x);
      RoomIsFree(p, live, Parent(x));
      var t :| 0 <= t <= x.tier - 1 && p.chains[t] != [];
      assert 0 <= t <= x.tier;
    }
  }

  // alloc succeeds exactly when the live blocks leave room for one more of the size class, wherever it is.
  lemma AllocFindsRoom(h: Heap, size: nat)
    requires Inv(h)
    ensures var tier := TierOf(h.pool.tiers, size);
      Alloc(h, size).1 != Null <==>
      tier.Some? && exists x :: InTree(h.pool.tiers, x) && x.tier == tier.value && AllUnrelated(h.live, x)
  {
    var tier := TierOf(h.pool.tiers, size);
    if Alloc(h, size).1 != Null {
      ObtainCanonical(h.pool, h.live, tier.value);
      var x := Block(tier.value, Obtain(h.pool, tier.value).1.value);
      assert AllUnrelated(h.live, x);
    }
    if tier.Some? {
      if x :| InTree(h.pool.tiers, x) && x.tier == tier.value && AllUnrelated(h.live, x) {
        RoomIsFree(h.pool, h.live, x);
        ObtainSucceeds(h.pool, tier.value);
      }
    }
  }

  // What a successful alloc hands out: a fresh block of the size class, at the block's address.
  lemma AllocGrantsBlock(h: Heap, size: nat)
    requires Inv(h) && Alloc(h, size).1 != Null
    ensures var (g, p) := Alloc(h, size);
      exists x :: x !in h.live && g.live == h.live + {x} && InTree(h.pool.tiers, x)
        && TierOf(h.pool.tiers, size) == Some(x.tier) && size <= BlockSize(h.pool.tiers, x.tier)
        && p == PtrTo(h.pool.tiers, x) && Locate(g.pool, p) == Some(x)
  {
    var tier := TierOf(h.pool.tiers, size).value;
    ObtainCanonical(h.pool, h.live, tier);
    var (q, id) := Obtain(h.pool, tier);
    var x := Block(tier, id.value);
    LocateLive(q, h.live + {x}, x);
  }

  // ----- Freeing undoes allocating -----

  lemma {:induction false} ObtainKeepsDeeper(p: Pool, tier: nat, t: nat)
    requires tier < t < |p.chains|
    ensures Obtain(p, tier).0.chains[t] == p.chains[t]
    decreases tier
  {
    if p.chains[tier] == [] && tier > 0 {
      ObtainKeepsDeeper(p, tier - 1, t);
      var (q, up) := Obtain(p, tier - 1);
      if up.Some? {
        RecycleKeepsDeeper(Split(q, Block(tier - 1, up.value)), Block(tier, 2 * up.value + 1), t);
      }
    }
  }

  lemma {:induction false} RecycleKeepsDeeper(p: Pool, x: Block, t: nat)
    requires x.tier < t < |p.chains|
    ensures Recycle(p, x).chains[t] == p.chains[t]
    decreases x.tier
  {
    if x.tier > 0 && Buddy(x) !in p.bits {
      RecycleKeepsDeeper(Merge(p, x), Parent(x), t);
    }
  }

  // Recycling an obtained block restores every bit and every chain in its old order, however deep the split.
  lemma {:induction false} RecycleUndoesObtain(p: Pool, live: set<Block>, tier: nat)
    requires Canonical(p, live) && tier < p.tiers && Obtain(p, tier).1.Some?
    ensures Recycle(Obtain(p, tier).0, Block(tier, Obtain(p, tier).1.value)) == p
  {
    hide Canonical, Pow2;
    ChainsShape(p, live);
    if p.chains[tier] != [] {
      PushUndoesPop(p, live, tier);
    } else {
      RecycleUndoesObtain(p, live, tier - 1);
      ObtainCanonical(p, live, tier - 1);
      ObtainKeepsDeeper(p, tier - 1, tier);
      var (q, up) := Obtain(p, tier - 1);
      var x := Block(tier - 1, up.value);
      SplitCanonical(q, live + {x}, x);
      MergeUndoesSplit(q, x);
    }
  }

  lemma PushUndoesPop(p: Pool, live: set<Block>, tier: nat)
    requires Canonical(p, live) && tier < p.tiers && p.chains[tier] != []
    ensures Recycle(PopFree(p, tier), Block(tier, p.chains[tier][0])) == p
  {
    PopCanonical(p, live, tier);
    var x := Block(tier, p.chains[tier][0]);
    BuddyFacts(x);
    assert [p.chains[tier][0]] + p.chains[tier][1..] == p.chains[tier];
  }

  lemma MergeUndoesSplit(q: Pool, x: Block)
    requires x.tier + 1 < |q.chains| && q.chains[x.tier + 1] == []
    requires LeftChild(x) !in q.bits && RightChild(x) !in q.bits
    ensures var s := Recycle(Split(q, x), RightChild(x));
      Recycle(s, LeftChild(x)) == Recycle(q, x)
  {
    var l, r := LeftChild(x), RightChild(x);
    ChildrenUnder(x);
    var s := Recycle(Split(q, x), r);
    assert s == PushFree(Split(q, x), r);
    assert s.chains[l.tier] == [r.id];
    assert Merge(s, l) == q;
  }

  lemma FreeUndoesAlloc(h: Heap, size: nat)
    requires Inv(h) && Alloc(h, size).1 != Null
    ensures var (g, p) := Alloc(h, size);
      Inv(g) && Owned(g, Locate(g.pool, p)) && Free(g, p) == h.(hwm := g.hwm)
  {
    var tier := TierOf(h.pool.tiers, size).value;
    ObtainCanonical(h.pool, h.live, tier);
    AllocInv(h, size);
    RecycleUndoesObtain(h.pool, h.live, tier);
    var (q, id) := Obtain(h.pool, tier);
    var x := Block(tier, id.value);
    LocateLive(q, h.live + {x}, x);
    assert h.live + {x} - {x} == h.live;
  }

  // ----- free and sized dealloc agree -----

  // What free asks of its caller: the address of a live block, or one at which nothing is marked in use.
  lemma FreeIsLegal(h: Heap, p: Ptr)
    requires Inv(h)
    ensures Owned(h, Locate(h.pool, p)) <==>
      Locate(h.pool, p) == None || exists x :: x in h.live && x.tier < h.pool.tiers && p == PtrTo(h.pool.tiers, x)
  {
    var found := Locate(h.pool, p);
    if found.Some? {
      LocateFromAddress(h.pool, p, h.pool.tiers - 1);
    }
    if x :| x in h.live && x.tier < h.pool.tiers && p == PtrTo(h.pool.tiers, x) {
      LocateLive(h.pool, h.live, x);
    }
  }

  lemma FreeIsDealloc(h: Heap, x: Block, size: nat)
    requires Inv(h) && x in h.live && TierOf(h.pool.tiers, size) == Some(x.tier)
    ensures var p := PtrTo(h.pool.tiers, x);
      && DeallocTarget(h, p, size) == Locate(h.pool, p) == Some(x)
      && Free(h, p) == Dealloc(h, p, size)
      && Free(h, p).live == h.live - {x}
      && Free(h, p).used == h.used - BlockSize(h.pool.tiers, x.tier)
  {
    LocateLive(h.pool, h.live, x);
    LiveBytesRemove(h.pool.tiers, h.live, x);
  }

  // ----- realloc -----

  // The live block x gave way to y, of the size class of `size`, and r points to y.
  ghost predicate Swapped(h: Heap, x: Block, size: nat, g: Heap, r: Ptr, y: Block)
    requires WellShaped(h.pool) && WellShaped(g.pool)
  {
    && g.pool.tiers == h.pool.tiers
    && y.tier < h.pool.tiers
    && r == PtrTo(h.pool.tiers, y)
    && TierOf(h.pool.tiers, size) == Some(y.tier)
    && (y == x || y !in h.live)
    && g.live == h.live - {x} + {y}
    && DeallocTarget(g, r, size) == Some(y)
  }

  // realloc of a live block refuses only when it needs a new block that alloc cannot provide, and then
  // changes nothing; otherwise the live set changes by one swap and the result has the tier of its size.
  lemma ReallocSwaps(h: Heap, x: Block, size: nat)
    requires Inv(h) && x in h.live && size > 0
    ensures Locate(h.pool, PtrTo(h.pool.tiers, x)) == Some(x)
    ensures var (g, r) := Realloc(h, PtrTo(h.pool.tiers, x), size);
      && Inv(g)
      && (r == Null <==> TierOf(h.pool.tiers, size) != Some(x.tier) && Alloc(h, size).1 == Null)
      && (r == Null ==> g == h)
      && (r != Null ==> exists y :: Swapped(h, x, size, g, r, y))
  {
    var tiers := h.pool.tiers;
    var p := PtrTo(tiers, x);
    LocateLive(h.pool, h.live, x);
    AllocInv(h, size);
    ReallocInv(h, p, size);
    if StaysInPlace(tiers, x, size) {
      ReallocStays(h, x, size);
    } else {
      SizeClassDiffers(tiers, x.tier, size);
      if Alloc(h, size).1 != Null {
        var y := ReallocMoves(h, x, size);
      }
    }
  }

  predicate StaysInPlace(tiers: nat, x: Block, size: nat)
    requires x.tier < tiers
  {
    size <= BlockSize(tiers, x.tier) && (x.tier == tiers - 1 || BlockSize(tiers, x.tier) / 2 < size)
  }

  lemma ReallocStays(h: Heap, x: Block, size: nat)
    requires Inv(h) && x in h.live && size > 0 && StaysInPlace(h.pool.tiers, x, size)
    ensures Locate(h.pool, PtrTo(h.pool.tiers, x)) == Some(x)
    ensures Realloc(h, PtrTo(h.pool.tiers, x), size) == (h, PtrTo(h.pool.tiers, x))
    ensures Swapped(h, x, size, h, PtrTo(h.pool.tiers, x), x)
  {
    var tiers := h.pool.tiers;
    LocateLive(h.pool, h.live, x);
    if x.tier + 1 < tiers {
      ChildBytes(tiers, x);
    }
    TierOfUnique(tiers, size, x.tier);
    assert h.live - {x} + {x} == h.live;
  }

  lemma SizeClassDiffers(tiers: nat, t: nat, size: nat)
    requires t < tiers && !StaysInPlace(tiers, Block(t, 0), size)
    ensures TierOf(tiers, size) != Some(t)
  {
    if t + 1 < tiers {
      ChildBytes(tiers, Block(t, 0));
    }
  }

  lemma MoveUnfolds(h: Heap, x: Block, size: nat)
    requires Inv(h) && x in h.live && Alloc(h, size).1 != Null
    ensures var (g, b) := Alloc(h, size);
      var p := PtrTo(h.pool.tiers, x);
      && Locate(h.pool, p) == Some(x)
      && Inv(g) && x in g.live && g.pool.tiers == h.pool.tiers
      && BlockSize(g.pool.tiers, x.tier) <= g.used
      && Move(h, p, x, size) == (Release(g, x), b)
  {
    LocateLive(h.pool, h.live, x);
    LocateIsDeallocTarget(h, PtrTo(h.pool.tiers, x), size);
    ReleaseInv(Alloc(h, size).0, x);
  }

  lemma AllocNeedsRoom(h: Heap, size: nat)
    requires WellShaped(h.pool) && Alloc(h, size).1 != Null
    ensures size <= BlockSize(h.pool.tiers, 0)
  {
    var t := TierOf(h.pool.tiers, size).value;
    BlockSizeMono(h.pool.tiers, 0, t);
  }

  lemma ReallocUnfolds(h: Heap, x: Block, size: nat)
    requires Inv(h) && x in h.live && size > 0 && !StaysInPlace(h.pool.tiers, x, size)
    requires Alloc(h, size).1 != Null
    ensures var p := PtrTo(h.pool.tiers, x);
      && Locate(h.pool, p) == Some(x)
      && Realloc(h, p, size) == Move(h, p, x, size)
  {
    LocateLive(h.pool, h.live, x);
    AllocNeedsRoom(h, size);
    hide Inv, Alloc, Move, BlockSize;
  }

  lemma ReallocMoves(h: Heap, x: Block, size: nat) returns (y: Block)
    requires Inv(h) && x in h.live && size > 0 && !StaysInPlace(h.pool.tiers, x, size)
    requires Alloc(h, size).1 != Null
    ensures Locate(h.pool, PtrTo(h.pool.tiers, x)) == Some(x)
    ensures var (g, r) := Realloc(h, PtrTo(h.pool.tiers, x), size);
      Inv(g) && r == Alloc(h, size).1 && Swapped(h, x, size, g, r, y) && y != x
  {
    hide Alloc, Realloc, Move, TierOf, BlockSize, Locate, StaysInPlace;
    var tiers := h.pool.tiers;
    ReallocUnfolds(h, x, size);
    MoveUnfolds(h, x, size);
    ReallocInv(h, PtrTo(tiers, x), size);
    AllocGrantsBlock(h, size);
    var (g, b) := Alloc(h, size);
    y :| y !in h.live && g.live == h.live + {y} && InTree(tiers, y)
      && TierOf(tiers, size) == Some(y.tier) && size <= BlockSize(tiers, y.tier)
      && b == PtrTo(tiers, y) && Locate(g.pool, b) == Some(y);
    LocateLive(g.pool, g.live, y);
    assert h.live + {y} - {x} == h.live - {x} + {y};
  }
}
