/**
 The calls as their clients see them: what each does to the blocks in client hands, and what the high-water mark
 remembers, without the pool behind it.
 */
module BuddyCalls {
  import opened Prelude
  import opened BuddyGeometry
  import opened BuddyPool
  import opened BuddyHeap
  import opened BuddyTheorems

  predicate StartsAt(tiers: nat, x: Block, p: Ptr) {
    x.tier < tiers && p == PtrTo(tiers, x)
  }

  // The smallest block size that holds the request: 16 bytes on the last tier, and twice as many on each above it.
  predicate ClassSays(tiers: nat, size: nat, tier: nat) {
    && tier < tiers && size <= 16 * Pow2(tiers - 1 - tier)
    && (tier + 1 < tiers ==> 16 * Pow2(tiers - 2 - tier) < size)
  }

  lemma ClassMeans(tiers: nat, size: nat)
    requires tiers > 0
    ensures forall t: nat :: ClassSays(tiers, size, t) <==> TierOf(tiers, size) == Some(t)
  {
    hide Pow2;
    var found := TierOf(tiers, size);
    if found.Some? {
      assert ClassSays(tiers, size, found.value);
    }
    forall t: nat | ClassSays(tiers, size, t) ensures found == Some(t) {
      assert size <= BlockSize(tiers, t);
      BlockSizeMono(tiers, 0, t);
      if found.value < t {
        BlockSizeMono(tiers, found.value + 1, t);
      } else if t < found.value {
        BlockSizeMono(tiers, t + 1, found.value);
      }
    }
  }

  // Some block of the request's size class neither contains nor lies in a block in client hands.
  ghost predicate HasRoom(tiers: nat, live: set<Block>, size: nat)
    requires tiers > 0
  {
    exists x :: InTree(tiers, x) && ClassSays(tiers, size, x.tier) && AllUnrelated(live, x)
  }

  // y is a new block of the request's size class, and r is its address.
  ghost predicate Granted(tiers: nat, live: set<Block>, size: nat, r: Ptr, y: Block)
    requires tiers > 0
  {
    && y !in live && InTree(tiers, y) && StartsAt(tiers, y, r)
    && ClassSays(tiers, size, y.tier)
  }

  // ----- alloc -----

  ghost predicate AllocSays(tiers: nat, live: set<Block>, size: nat, after: set<Block>, r: Ptr)
    requires tiers > 0
  {
    && (r != Null <==> HasRoom(tiers, live, size))
    && (r == Null ==> after == live)
    && (r != Null ==> exists y :: Granted(tiers, live, size, r, y) && after == live + {y})
  }

  lemma AllocMeans(h: Heap, size: nat)
    requires Inv(h)
    ensures var (g, r) := Alloc(h, size);
      AllocSays(h.pool.tiers, h.live, size, g.live, r) && (r == Null ==> g == h)
  {
    hide Inv, Alloc, TierOf, BlockSize, AllUnrelated, Locate, ClassSays;
    InvShape(h);
    ClassMeans(h.pool.tiers, size);
    AllocInv(h, size);
    AllocFindsRoom(h, size);
    if HasRoom(h.pool.tiers, h.live, size) {
      var x :| InTree(h.pool.tiers, x) && ClassSays(h.pool.tiers, size, x.tier) && AllUnrelated(h.live, x);
    }
    if Alloc(h, size).1 != Null {
      AllocGrantsBlock(h, size);
      var (g, p) := Alloc(h, size);
      InvShape(g);
      var y :| y !in h.live && g.live == h.live + {y} && InTree(h.pool.tiers, y)
        && TierOf(h.pool.tiers, size) == Some(y.tier) && size <= BlockSize(h.pool.tiers, y.tier)
        && p == PtrTo(h.pool.tiers, y) && Locate(g.pool, p) == Some(y);
      assert Granted(h.pool.tiers, h.live, size, p, y);
    }
  }

  lemma InvShape(h: Heap)
    requires Inv(h)
    ensures WellShaped(h.pool)
    ensures forall x :: x in h.live ==> InTree(h.pool.tiers, x)
  {
  }

  // ----- Which block it is -----

  // The lowest tier from `tier` up that has a free block.
  predicate Source(p: Pool, tier: nat, s: nat) {
    s <= tier < |p.chains| && p.chains[s] != [] && forall t: nat :: s < t <= tier ==> p.chains[t] == []
  }

  // The first block of that tier is halved down to the tier wanted. Its leftmost part is handed out, and the other
  // half of each split is left as the only free block of its tier.
  lemma {:induction false} ObtainSplits(p: Pool, tier: nat, s: nat)
    requires Source(p, tier, s)
    ensures var (q, id) := Obtain(p, tier);
      && id == Some(p.chains[s][0] * Pow2(tier - s))
      && forall t: nat :: t < |p.chains| ==>
           q.chains[t] == if t == s then p.chains[t][1..]
                          else if s < t <= tier then [p.chains[s][0] * Pow2(t - s) + 1] else p.chains[t]
    decreases tier
  {
    hide Obtain, Pow2;
    Pow2Ends();
    if s == tier {
      FirstPopped(p, tier);
    } else {
      ObtainSplits(p, tier - 1, s);
      HalfStays(p, tier);
      Pow2Add(1, tier - 1 - s);
      var b, m := p.chains[s][0], Pow2(tier - 1 - s);
      assert b * (2 * m) == 2 * (b * m);
    }
  }

  lemma Pow2Ends()
    ensures Pow2(0) == 1 && Pow2(1) == 2
  {
  }

  lemma FirstPopped(p: Pool, tier: nat)
    requires tier < |p.chains| && p.chains[tier] != []
    ensures var (q, id) := Obtain(p, tier);
      id == Some(p.chains[tier][0]) && q.chains == p.chains[tier := p.chains[tier][1..]]
  {
  }

  // After a split the right half is put on its chain and no further: its buddy is in use.
  lemma HalfStays(p: Pool, tier: nat)
    requires 0 < tier < |p.chains| && p.chains[tier] == [] && Obtain(p, tier - 1).1.Some?
    ensures var (q, up) := Obtain(p, tier - 1);
      && Obtain(p, tier).1 == Some(2 * up.value)
      && Obtain(p, tier).0.chains == q.chains[tier := [2 * up.value + 1] + q.chains[tier]]
  {
    var (q, up) := Obtain(p, tier - 1);
    var x := Block(tier - 1, up.value);
    assert Buddy(RightChild(x)) == LeftChild(x);
  }

  // So the block that alloc hands out starts where the first block of the source tier does.
  lemma AllocTakes(h: Heap, size: nat, tier: nat, s: nat)
    requires Inv(h) && ClassSays(h.pool.tiers, size, tier) && Source(h.pool, tier, s)
    ensures Alloc(h, size).1 == At(16 * (h.pool.chains[s][0] * Pow2(h.pool.tiers - 1 - s)))
  {
    hide Inv, Obtain, Pow2, Recycle, BlockSize, TierOf;
    InvShape(h);
    ClassMeans(h.pool.tiers, size);
    assert TierOf(h.pool.tiers, size) == Some(tier) by {
      assert ClassSays(h.pool.tiers, size, tier);
    }
    ObtainSplits(h.pool, tier, s);
    PartStarts(h.pool.tiers, h.pool.chains[s][0], s, tier);
  }

  // The leftmost part of a block starts where the block does.
  lemma PartStarts(tiers: nat, id: nat, s: nat, tier: nat)
    requires s <= tier < tiers
    ensures Start(tiers, Block(tier, id * Pow2(tier - s))) == 16 * (id * Pow2(tiers - 1 - s))
  {
    hide Pow2;
    Pow2Add(tier - s, tiers - 1 - tier);
    var m, n := Pow2(tier - s), Pow2(tiers - 1 - tier);
    assert (id * m) * (16 * n) == 16 * (id * (m * n));
  }

  // ----- free and dealloc -----

  // What free leaves in client hands: all but the block at p.
  ghost predicate FreeSays(tiers: nat, live: set<Block>, p: Ptr, after: set<Block>) {
    forall x :: x in after <==> x in live && !StartsAt(tiers, x, p)
  }

  // Live blocks have different addresses.
  lemma OneAtAddress(h: Heap, x: Block, y: Block, p: Ptr)
    requires Inv(h) && x in h.live && y in h.live && StartsAt(h.pool.tiers, x, p) && StartsAt(h.pool.tiers, y, p)
    ensures x == y
  {
    LocateLive(h.pool, h.live, x);
    LocateLive(h.pool, h.live, y);
  }

  // Only a live block is located where one starts, and where none starts nothing may be.
  lemma LocatedStarts(h: Heap, p: Ptr)
    requires Inv(h) && Owned(h, Locate(h.pool, p))
    ensures Locate(h.pool, p).Some? ==>
      Locate(h.pool, p).value in h.live && StartsAt(h.pool.tiers, Locate(h.pool, p).value, p)
    ensures Locate(h.pool, p).None? ==> forall x :: x in h.live ==> !StartsAt(h.pool.tiers, x, p)
  {
    if Locate(h.pool, p).Some? {
      LocateFromAddress(h.pool, p, h.pool.tiers - 1);
    }
    forall x | x in h.live && StartsAt(h.pool.tiers, x, p) ensures Locate(h.pool, p) == Some(x) {
      LocateLive(h.pool, h.live, x);
    }
  }

  lemma FreeMeans(h: Heap, p: Ptr)
    requires Inv(h) && Owned(h, Locate(h.pool, p))
    ensures FreeSays(h.pool.tiers, h.live, p, Free(h, p).live) && Free(h, p).hwm == h.hwm
  {
    hide StartsAt;
    LocatedStarts(h, p);
    var tiers, found := h.pool.tiers, Locate(h.pool, p);
    if found.Some? {
      forall x | x in h.live ensures StartsAt(tiers, x, p) <==> x == found.value {
        if StartsAt(tiers, x, p) {
          OneAtAddress(h, x, found.value, p);
        }
      }
    }
  }

  // What dealloc leaves in client hands: all but the block at p, if it is of the size class given.
  ghost predicate DeallocSays(tiers: nat, live: set<Block>, p: Ptr, size: nat, after: set<Block>)
    requires tiers > 0
  {
    forall x :: x in after <==> x in live && !(StartsAt(tiers, x, p) && ClassSays(tiers, size, x.tier))
  }

  lemma DeallocMeans(h: Heap, p: Ptr, size: nat)
    requires Inv(h) && Owned(h, DeallocTarget(h, p, size))
    ensures DeallocSays(h.pool.tiers, h.live, p, size, Dealloc(h, p, size).live) && Dealloc(h, p, size).hwm == h.hwm
  {
    hide ClassSays;
    var tiers, target := h.pool.tiers, DeallocTarget(h, p, size);
    ClassMeans(tiers, size);
    forall x | x in h.live
      ensures StartsAt(tiers, x, p) && TierOf(tiers, size) == Some(x.tier) <==> target == Some(x)
    {
      if StartsAt(tiers, x, p) && TierOf(tiers, size) == Some(x.tier) {
        LocateLive(h.pool, h.live, x);
      }
      if target == Some(x) {
        TargetStarts(h, p, size);
      }
    }
  }

  lemma TargetStarts(h: Heap, p: Ptr, size: nat)
    requires WellShaped(h.pool) && DeallocTarget(h, p, size).Some?
    ensures StartsAt(h.pool.tiers, DeallocTarget(h, p, size).value, p)
    ensures TierOf(h.pool.tiers, size) == Some(DeallocTarget(h, p, size).value.tier)
  {
    var x := DeallocTarget(h, p, size).value;
    var s := BlockSize(h.pool.tiers, x.tier);
    assert p.offset == s * (p.offset / s) + p.offset % s;
    assert s * x.id == x.id * s;
  }

  // ----- realloc -----

  // The live block x at p either keeps its place, or is refused, or gives way to a new block.
  ghost predicate MoveSays(tiers: nat, live: set<Block>, x: Block, p: Ptr, size: nat, after: set<Block>, r: Ptr)
    requires tiers > 0
  {
    && (ClassSays(tiers, size, x.tier) ==> r == p && after == live)
    && (!ClassSays(tiers, size, x.tier) ==>
          && (r != Null <==> HasRoom(tiers, live, size))
          && (r == Null ==> after == live)
          && (r != Null ==> exists y :: Granted(tiers, live, size, r, y) && after == live - {x} + {y}))
  }

  // realloc of no pointer is alloc, realloc to no bytes is free, and realloc of an address at which no live block
  // starts does nothing.
  ghost predicate ReallocSays(tiers: nat, live: set<Block>, p: Ptr, size: nat, after: set<Block>, r: Ptr)
    requires tiers > 0
  {
    && (p == Null ==> AllocSays(tiers, live, size, after, r))
    && (p != Null && size == 0 ==> r == Null && FreeSays(tiers, live, p, after))
    && (p != Null && size > 0 ==>
          && (forall x :: x in live && StartsAt(tiers, x, p) ==> MoveSays(tiers, live, x, p, size, after, r))
          && ((forall x :: x in live ==> !StartsAt(tiers, x, p)) ==> r == Null && after == live))
  }

  lemma ReallocMeans(h: Heap, p: Ptr, size: nat)
    requires Inv(h) && Owned(h, Locate(h.pool, p))
    ensures var (g, r) := Realloc(h, p, size);
      && ReallocSays(h.pool.tiers, h.live, p, size, g.live, r)
      && ((p == Null || size > 0) && r == Null ==> g == h)
  {
    hide Inv, Alloc, Free, ReallocLive, Locate, AllocSays, FreeSays, StartsAt, MoveSays, Owned;
    InvShape(h);
    if p == Null {
      AllocMeans(h, size);
    } else if size == 0 {
      FreeMeans(h, p);
    } else {
      LocatedStarts(h, p);
      forall x | x in h.live && StartsAt(h.pool.tiers, x, p)
        ensures var (g, r) := Realloc(h, p, size);
          MoveSays(h.pool.tiers, h.live, x, p, size, g.live, r) && (r == Null ==> g == h)
      {
        MoveMeans(h, x, p, size);
      }
    }
  }

  lemma MoveMeans(h: Heap, x: Block, p: Ptr, size: nat)
    requires Inv(h) && x in h.live && StartsAt(h.pool.tiers, x, p) && size > 0
    ensures Owned(h, Locate(h.pool, p))
    ensures var (g, r) := Realloc(h, p, size);
      MoveSays(h.pool.tiers, h.live, x, p, size, g.live, r) && (r == Null ==> g == h)
  {
    hide Inv, Alloc, Realloc, TierOf, BlockSize, Locate, HasRoom, DeallocTarget, ClassSays;
    var tiers := h.pool.tiers;
    ClassMeans(tiers, size);
    InvShape(h);
    ReallocSwaps(h, x, size);
    AllocMeans(h, size);
    if StaysInPlace(tiers, x, size) {
      ReallocStays(h, x, size);
    } else {
      SizeClassDiffers(tiers, x.tier, size);
      if Alloc(h, size).1 != Null {
        var y := ReallocMoves(h, x, size);
        SwappedMeans(h, x, size, Realloc(h, p, size).0, Realloc(h, p, size).1, y);
      }
    }
  }

  lemma SwappedMeans(h: Heap, x: Block, size: nat, g: Heap, r: Ptr, y: Block)
    requires Inv(h) && Inv(g) && Swapped(h, x, size, g, r, y) && y != x
    ensures Granted(h.pool.tiers, h.live, size, r, y) && g.live == h.live - {x} + {y}
  {
    hide Canonical, DeallocTarget, ClassSays;
    InvShape(g);
    ClassMeans(h.pool.tiers, size);
    assert y in g.live;
  }

  // ----- The high-water mark -----

  // A call raises the mark to the bytes in use with the block it hands out, before any other is given back.
  lemma HwmStep(h: Heap, c: Call)
    requires Inv(h) && Legal(h, c) && !c.CallResetHwm?
    ensures var g := Step(h, c);
      && (g.live <= h.live ==> g.hwm == h.hwm)
      && forall y :: y in g.live && y !in h.live ==>
           && y.tier < h.pool.tiers
           && var peak := h.used + BlockSize(h.pool.tiers, y.tier);
             g.hwm == if peak > h.hwm then peak else h.hwm
  {
    hide Inv, Locate, BlockSize, Capacity, TierOf, Obtain, Recycle, DeallocTarget, LiveBytes, FreeBytes;
    InvShape(h);
    match c {
      case CallAlloc(size) => HwmAlloc(h, size);
      case CallDealloc(p, size) =>
      case CallFree(p) =>
      case CallRealloc(p, size) => HwmRealloc(h, p, size);
    }
  }

  lemma HwmAlloc(h: Heap, size: nat)
    requires Inv(h)
    ensures var (g, r) := Alloc(h, size);
      && (r == Null ==> g == h)
      && (r != Null ==> exists y ::
            && y !in h.live && g.live == h.live + {y} && y.tier < h.pool.tiers
            && var peak := h.used + BlockSize(h.pool.tiers, y.tier);
              g.used == peak && g.hwm == if peak > h.hwm then peak else h.hwm)
  {
    hide Inv, BlockSize, Obtain, TierOf;
    InvShape(h);
    AllocInv(h, size);
    if Alloc(h, size).1 != Null {
      AllocGrantsBlock(h, size);
      var tier := TierOf(h.pool.tiers, size).value;
      var x := Block(tier, Obtain(h.pool, tier).1.value);
      assert x !in h.live;
    }
  }

  lemma HwmRealloc(h: Heap, p: Ptr, size: nat)
    requires Inv(h) && Owned(h, Locate(h.pool, p))
    ensures var g := Realloc(h, p, size).0;
      && (g.live <= h.live ==> g.hwm == h.hwm)
      && forall y :: y in g.live && y !in h.live ==>
           && y.tier < h.pool.tiers
           && var peak := h.used + BlockSize(h.pool.tiers, y.tier);
             g.hwm == if peak > h.hwm then peak else h.hwm
  {
    hide Inv, BlockSize, Alloc, Locate, DeallocTarget;
    InvShape(h);
    HwmAlloc(h, size);
    if p != Null && size > 0 && Locate(h.pool, p).Some? {
      if Alloc(h, size).1 != Null {
        LocateIsDeallocTarget(h, p, size);
      }
    }
  }

  // ----- The mark over runs -----

  // hs are the heaps that the calls cs lead through, from a fresh allocator on.
  ghost predicate Run(tiers: nat, cs: seq<Call>, hs: seq<Heap>)
    requires 1 <= tiers <= MAX_TIERS
  {
    && |hs| == |cs| + 1 && hs[0] == Initial(tiers)
    && forall i :: 0 <= i < |cs| ==> Inv(hs[i]) && Legal(hs[i], cs[i]) && hs[i + 1] == Step(hs[i], cs[i])
  }

  // The bytes in use at the moment call i hands out block y.
  ghost predicate Peak(tiers: nat, hs: seq<Heap>, i: nat, y: Block, bytes: nat) {
    && i + 1 < |hs| && y.tier < tiers && y in hs[i + 1].live && y !in hs[i].live
    && bytes == hs[i].used + BlockSize(tiers, y.tier)
  }

  // Calls from `since` on reset nothing.
  predicate NoResets(cs: seq<Call>, since: nat) {
    forall i :: since <= i < |cs| ==> cs[i] != CallResetHwm
  }

  // The mark is the greatest number of bytes in use at any moment at which a block was handed out since the last
  // reset, the middle of a realloc included, or zero if there was none.
  lemma {:induction false} HwmIsPeak(tiers: nat, cs: seq<Call>, hs: seq<Heap>, since: nat)
    requires 1 <= tiers <= MAX_TIERS && Run(tiers, cs, hs) && since <= |cs| && NoResets(cs, since)
    requires since == 0 || cs[since - 1] == CallResetHwm
    ensures var hwm := hs[|cs|].hwm;
      && (forall i: nat, y, bytes: nat :: since <= i && Peak(tiers, hs, i, y, bytes) ==> bytes <= hwm)
      && (hwm == 0 || exists i: nat, y :: since <= i && Peak(tiers, hs, i, y, hwm))
    decreases |cs|
  {
    hide Inv, Legal, Step, BlockSize, Initial;
    var n := |cs|;
    if since == n {
      HwmStarts(tiers, cs, hs);
    } else {
      var init, before := cs[..n - 1], hs[..n];
      RunShorter(tiers, cs, hs);
      HwmIsPeak(tiers, init, before, since);
      assert cs[n - 1] != CallResetHwm;
      HwmStep(hs[n - 1], cs[n - 1]);
      TiersStay(tiers, cs, hs, n - 1);
      PeaksExtend(tiers, hs, since);
      var g, h := hs[n], hs[n - 1];
      if y :| y in g.live && y !in h.live {
        assert Peak(tiers, hs, n - 1, y, h.used + BlockSize(tiers, y.tier));
      }
      forall i: nat, y, bytes: nat | since <= i && Peak(tiers, hs, i, y, bytes) ensures bytes <= g.hwm {
        assert i < n - 1 ==> Peak(tiers, before, i, y, bytes);
      }
      if g.hwm == h.hwm && h.hwm != 0 {
        var i: nat, y :| since <= i && Peak(tiers, before, i, y, h.hwm);
        assert Peak(tiers, hs, i, y, g.hwm);
      }
    }
  }

  lemma HwmStarts(tiers: nat, cs: seq<Call>, hs: seq<Heap>)
    requires 1 <= tiers <= MAX_TIERS && Run(tiers, cs, hs)
    requires cs == [] || cs[|cs| - 1] == CallResetHwm
    ensures hs[|cs|].hwm == 0
  {
    hide Inv, Recycle;
    if cs != [] {
      assert hs[|cs|] == Step(hs[|cs| - 1], cs[|cs| - 1]);
    }
  }

  lemma RunShorter(tiers: nat, cs: seq<Call>, hs: seq<Heap>)
    requires 1 <= tiers <= MAX_TIERS && Run(tiers, cs, hs) && cs != []
    ensures Run(tiers, cs[..|cs| - 1], hs[..|cs|])
  {
    hide Inv, Legal, Step, Initial;
  }

  lemma {:induction false} TiersStay(tiers: nat, cs: seq<Call>, hs: seq<Heap>, i: nat)
    requires 1 <= tiers <= MAX_TIERS && Run(tiers, cs, hs) && i <= |cs|
    ensures hs[i].pool.tiers == tiers
  {
    hide Inv, Legal, Step;
    if i == 0 {
      InitialInv(tiers);
    } else {
      TiersStay(tiers, cs, hs, i - 1);
      StepInv(hs[i - 1], cs[i - 1]);
    }
  }

  // The peaks of a longer run are those of the shorter one and those of its last call.
  lemma PeaksExtend(tiers: nat, hs: seq<Heap>, since: nat)
    requires |hs| >= 2
    ensures var n := |hs| - 1;
      forall i: nat, y, bytes: nat :: since <= i < n - 1 ==>
        (Peak(tiers, hs, i, y, bytes) <==> Peak(tiers, hs[..n], i, y, bytes))
  {
    hide BlockSize;
  }
}
