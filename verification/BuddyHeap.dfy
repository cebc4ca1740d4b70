/**
 The public operations of the allocator on values: a pool, the blocks its clients hold,
 and the two byte counters. Pointers are offsets from the start of the pool.
 */
module BuddyHeap {
  import opened Prelude
  import opened BuddyGeometry
  import opened BuddyPool

  const MAX_TIERS := 28

  // A pointer may also lie outside the pool, hence the possibly negative offset.
  datatype Ptr = Null | At(offset: int)

  datatype Heap = Heap(pool: Pool, live: set<Block>, used: nat, hwm: nat)

  // ----- Address arithmetic -----

  function TierFrom(tiers: nat, size: nat, t: nat): (r: Option<nat>)
    requires t < tiers
    ensures r.Some? ==> r.value <= t && size <= BlockSize(tiers, r.value)
    ensures r.Some? && r.value < t ==> BlockSize(tiers, r.value + 1) < size
    ensures r.None? ==> BlockSize(tiers, 0) < size
  {
    if size <= BlockSize(tiers, t) then Some(t)
    else if t == 0 then None
    else TierFrom(tiers, size, t - 1)
  }

  // The smallest block size that holds `size` bytes, searched from the bottom tier up.
  function TierOf(tiers: nat, size: nat): Option<nat>
    requires tiers > 0
  {
    TierFrom(tiers, size, tiers - 1)
  }

  predicate ValidPtr(tiers: nat, p: Ptr)
    requires tiers > 0
  {
    p.At? && 0 <= p.offset < Capacity(tiers) && p.offset % 16 == 0
  }

  function BlockIdOf(tiers: nat, tier: nat, p: Ptr): Option<nat>
    requires tier < tiers
  {
    if !ValidPtr(tiers, p) then None
    else if p.offset % BlockSize(tiers, tier) != 0 then None
    else Some(p.offset / BlockSize(tiers, tier))
  }

  function LocateFrom(p: Pool, a: Ptr, t: nat): Option<Block>
    requires t < p.tiers
  {
    var id := BlockIdOf(p.tiers, t, a);
    if id.None? then None
    else if Block(t, id.value) in p.bits then Some(Block(t, id.value))
    else if t == 0 then None
    else LocateFrom(p, a, t - 1)
  }

  // locateBlockInUse: the first in-use block found at this address, smallest tier first.
  function Locate(p: Pool, a: Ptr): Option<Block>
    requires p.tiers > 0
  {
    LocateFrom(p, a, p.tiers - 1)
  }

  function FirstFree(p: Pool, t: nat): Option<nat>
    requires t <= |p.chains|
    decreases |p.chains| - t
  {
    if t == |p.chains| then None
    else if p.chains[t] != [] then Some(t)
    else FirstFree(p, t + 1)
  }

  function Available(p: Pool): nat
    requires |p.chains| == p.tiers
  {
    match FirstFree(p, 0)
    case Some(t) => FirstFreeFacts(p, 0); BlockSize(p.tiers, t)
    case None => 0
  }

  lemma {:induction false} FirstFreeFacts(p: Pool, t: nat)
    requires t <= |p.chains|
    ensures var r := FirstFree(p, t);
      && (r.Some? ==> t <= r.value < |p.chains| && p.chains[r.value] != []
                      && forall s :: t <= s < r.value ==> p.chains[s] == [])
      && (r.None? ==> forall s :: t <= s < |p.chains| ==> p.chains[s] == [])
    decreases |p.chains| - t
  {
    if t < |p.chains| && p.chains[t] == [] {
      FirstFreeFacts(p, t + 1);
    }
  }

  // ----- Operations -----

  function PtrTo(tiers: nat, x: Block): Ptr
    requires x.tier < tiers
  {
    At(Start(tiers, x))
  }

  function Alloc(h: Heap, size: nat): (Heap, Ptr)
    requires WellShaped(h.pool)
  {
    match TierOf(h.pool.tiers, size)
    case None => (h, Null)
    case Some(tier) =>
      var (q, id) := Obtain(h.pool, tier);
      if id.None? then (h.(pool := q), Null)
      else
        var x := Block(tier, id.value);
        var used := h.used + BlockSize(q.tiers, tier);
        (Heap(q, h.live + {x}, used, if used > h.hwm then used else h.hwm), PtrTo(q.tiers, x))
  }

  // The shared tail of dealloc and free.
  function Release(h: Heap, x: Block): Heap
    requires WellShaped(h.pool) && x.tier < h.pool.tiers
    requires BlockSize(h.pool.tiers, x.tier) <= h.used
  {
    Heap(Recycle(h.pool, x), h.live - {x}, h.used - BlockSize(h.pool.tiers, x.tier), h.hwm)
  }

  // The block a sized dealloc addresses, if its checks pass.
  function DeallocTarget(h: Heap, p: Ptr, size: nat): Option<Block>
    requires WellShaped(h.pool)
  {
    match TierOf(h.pool.tiers, size)
    case None => None
    case Some(tier) =>
      match BlockIdOf(h.pool.tiers, tier, p)
      case None => None
      case Some(id) => Some(Block(tier, id))
  }

  // What a caller owes: a block that is really live, unless the checks turn the call into a no-op.
  ghost predicate Owned(h: Heap, target: Option<Block>) {
    target.Some? ==> target.value in h.live
  }

  ghost predicate Inv(h: Heap) {
    && Canonical(h.pool, h.live)
    && h.pool.tiers <= MAX_TIERS
    && h.used == LiveBytes(h.pool.tiers, h.live)
    && h.used + FreeBytes(h.pool) == Capacity(h.pool.tiers)
    && h.hwm <= Capacity(h.pool.tiers)
  }

  ghost function Dealloc(h: Heap, p: Ptr, size: nat): Heap
    requires Inv(h) && Owned(h, DeallocTarget(h, p, size))
  {
    match DeallocTarget(h, p, size)
    case None => h
    case Some(x) => LiveBytesRemove(h.pool.tiers, h.live, x); Release(h, x)
  }

  ghost function Free(h: Heap, p: Ptr): Heap
    requires Inv(h) && Owned(h, Locate(h.pool, p))
  {
    match Locate(h.pool, p)
    case None => h
    case Some(x) => LiveBytesRemove(h.pool.tiers, h.live, x); Release(h, x)
  }

  ghost function Realloc(h: Heap, p: Ptr, size: nat): (Heap, Ptr)
    requires Inv(h) && Owned(h, Locate(h.pool, p))
  {
    if p == Null then Alloc(h, size)
    else if size == 0 then (Free(h, p), Null)
    else
      match Locate(h.pool, p)
      case None => (h, Null)
      case Some(x) => ReallocLive(h, p, x, size)
  }

  ghost function ReallocLive(h: Heap, p: Ptr, x: Block, size: nat): (Heap, Ptr)
    requires Inv(h) && Locate(h.pool, p) == Some(x) && x in h.live
  {
    var blockSize := BlockSize(h.pool.tiers, x.tier);
    if x.tier == 0 && size > blockSize then (h, Null)
    else if x.tier == h.pool.tiers - 1 && size <= blockSize then (h, p)
    else if size > blockSize || size <= blockSize / 2 then Move(h, p, x, size)
    else (h, p)
  }

  // Obtain a block of the new size, then give the old one back; the caller copies in between.
  ghost function Move(h: Heap, p: Ptr, x: Block, size: nat): (Heap, Ptr)
    requires Inv(h) && Locate(h.pool, p) == Some(x) && x in h.live
  {
    var (g, b) := Alloc(h, size);
    if b == Null then (g, b)
    else
      LocateIsDeallocTarget(h, p, size);
      (Dealloc(g, p, BlockSize(h.pool.tiers, x.tier)), b)
  }

  // ----- Byte accounting -----

  ghost function LiveBytes(tiers: nat, live: set<Block>): nat
    requires forall x :: x in live ==> InTree(tiers, x)
  {
    if live == {} then 0
    else
      var x :| x in live;
      assert InTree(tiers, x);
      BlockSize(tiers, x.tier) + LiveBytes(tiers, live - {x})
  }

  lemma {:induction false} LiveBytesRemove(tiers: nat, live: set<Block>, y: Block)
    requires (forall x :: x in live ==> InTree(tiers, x)) && y in live
    ensures LiveBytes(tiers, live) == BlockSize(tiers, y.tier) + LiveBytes(tiers, live - {y})
    decreases live
  {
    var x :| x in live && LiveBytes(tiers, live) == BlockSize(tiers, x.tier) + LiveBytes(tiers, live - {x});
    if x != y {
      LiveBytesRemove(tiers, live - {x}, y);
      LiveBytesRemove(tiers, live - {y}, x);
      assert live - {x} - {y} == live - {y} - {x};
    }
  }

  function FreeBytesTo(p: Pool, n: nat): nat
    requires n <= p.tiers == |p.chains|
  {
    if n == 0 then 0
    else FreeBytesTo(p, n - 1) + |p.chains[n - 1]| * BlockSize(p.tiers, n - 1)
  }

  // The bytes on all free chains.
  function FreeBytes(p: Pool): nat
    requires p.tiers == |p.chains|
  {
    FreeBytesTo(p, p.tiers)
  }

  lemma {:induction false} FreeBytesUpdate(p: Pool, q: Pool, tier: nat, n: nat)
    requires n <= p.tiers == |p.chains| && tier < p.tiers
    requires q.tiers == p.tiers && |q.chains| == |p.chains|
    requires forall t :: 0 <= t < p.tiers && t != tier ==> |q.chains[t]| == |p.chains[t]|
    ensures FreeBytesTo(q, n) == FreeBytesTo(p, n)
      + if tier < n then (|q.chains[tier]| - |p.chains[tier]|) * BlockSize(p.tiers, tier) else 0
  {
    if n > 0 {
      FreeBytesUpdate(p, q, tier, n - 1);
      if n - 1 == tier {
        var c, d, s := |q.chains[tier]|, |p.chains[tier]|, BlockSize(p.tiers, tier);
        assert c * s == d * s + (c - d) * s;
      }
    }
  }

  // One more block of a tier on its chain.
  lemma FreeBytesGrow(p: Pool, q: Pool, tier: nat)
    requires p.tiers == |p.chains| && tier < p.tiers
    requires q.tiers == p.tiers && |q.chains| == |p.chains|
    requires forall t :: 0 <= t < p.tiers && t != tier ==> |q.chains[t]| == |p.chains[t]|
    requires |q.chains[tier]| == |p.chains[tier]| + 1
    ensures FreeBytes(q) == FreeBytes(p) + BlockSize(p.tiers, tier)
  {
    FreeBytesUpdate(p, q, tier, p.tiers);
  }

  lemma FreeBytesSame(p: Pool, q: Pool)
    requires p.tiers == |p.chains| > 0 && q.tiers == p.tiers && q.chains == p.chains
    ensures FreeBytes(q) == FreeBytes(p)
  {
    FreeBytesUpdate(p, q, 0, p.tiers);
  }

  lemma {:induction false} WithoutLength(s: seq<nat>, b: nat)
    requires b in s
    ensures |Without(s, b)| == |s| - 1
  {
    if s[0] != b {
      WithoutLength(s[1..], b);
    }
  }

  lemma {:induction false} RecycleBytes(p: Pool, live: set<Block>, x: Block)
    requires Canonical(p, live) && x in live
    ensures FreeBytes(Recycle(p, x)) == FreeBytes(p) + BlockSize(p.tiers, x.tier)
    decreases x.tier
  {
    if x.tier == 0 || Buddy(x) in p.bits {
      FreeBytesGrow(p, PushFree(p, x), x.tier);
    } else {
      var q := Merge(p, x);
      MergeCanonical(p, live, x);
      WithoutLength(p.chains[x.tier], BuddyId(x.id));
      FreeBytesGrow(q, p, x.tier);
      RecycleBytes(q, live - {x} + {Parent(x)}, Parent(x));
      ChildBytes(p.tiers, Parent(x));
    }
  }

  lemma {:induction false} ObtainBytes(p: Pool, live: set<Block>, tier: nat)
    requires Canonical(p, live) && tier < p.tiers
    ensures var (q, r) := Obtain(p, tier);
      r.Some? ==> FreeBytes(p) == FreeBytes(q) + BlockSize(p.tiers, tier)
  {
    hide Canonical, FreeBytes, BlockSize, BuddyPool.Recycle, Pow2;
    ChainsShape(p, live);
    if p.chains[tier] != [] {
      FreeBytesGrow(PopFree(p, tier), p, tier);
    } else if tier > 0 {
      ObtainBytes(p, live, tier - 1);
      ObtainCanonical(p, live, tier - 1);
      var (q, up) := Obtain(p, tier - 1);
      if up.Some? {
        var x := Block(tier - 1, up.value);
        SplitCanonical(q, live + {x}, x);
        var s := Split(q, x);
        FreeBytesSame(q, s);
        RecycleBytes(s, live + {x} - {x} + {LeftChild(x), RightChild(x)}, RightChild(x));
        ChildBytes(p.tiers, x);
      }
    }
  }

  // ----- Locating a live block -----

  // At a live block's own address no smaller tier has its bit set, so the upward probe stops at the block itself.
  lemma LocateLive(p: Pool, live: set<Block>, x: Block)
    requires Canonical(p, live) && x in live
    ensures Locate(p, PtrTo(p.tiers, x)) == Some(x)
    ensures BlockIdOf(p.tiers, x.tier, PtrTo(p.tiers, x)) == Some(x.id)
  {
    LocateLiveFrom(p, live, x, p.tiers - 1);
  }

  lemma {:induction false} LocateLiveFrom(p: Pool, live: set<Block>, x: Block, t: nat)
    requires Canonical(p, live) && x in live && x.tier <= t < p.tiers
    ensures LocateFrom(p, PtrTo(p.tiers, x), t) == Some(x)
    ensures BlockIdOf(p.tiers, x.tier, PtrTo(p.tiers, x)) == Some(x.id)
    decreases t
  {
    InsidePool(p.tiers, x);
    SlotInside(p.tiers, x);
    AlignedStart(p.tiers, x);
    LiveInBits(p, live, x);
    if t > x.tier {
      var z := LeftmostAt(p.tiers, x, t);
      AlignedStart(p.tiers, z);
      NothingBelowLive(p, live, x, z);
      LocateLiveFrom(p, live, x, t - 1);
    }
  }

  // The leftmost descendant on a deeper tier starts at the same address.
  lemma {:induction false} LeftmostAt(tiers: nat, x: Block, t: nat) returns (z: Block)
    requires x.tier <= t < tiers
    ensures z.tier == t && Under(z, x) && Start(tiers, z) == Start(tiers, x)
    decreases t
  {
    if t == x.tier {
      z := x;
    } else {
      var y := LeftmostAt(tiers, x, t - 1);
      z := LeftChild(y);
      ChildrenUnder(y);
      UnderTrans(z, y, x);
      ChildBytes(tiers, y);
    }
  }

  lemma {:induction false} LocateFromAddress(p: Pool, a: Ptr, t: nat)
    requires t < p.tiers && LocateFrom(p, a, t).Some?
    ensures var x := LocateFrom(p, a, t).value;
      x.tier <= t && x in p.bits && BlockIdOf(p.tiers, x.tier, a) == Some(x.id) && a == PtrTo(p.tiers, x)
    decreases t
  {
    var id := BlockIdOf(p.tiers, t, a);
    if Block(t, id.value) !in p.bits {
      LocateFromAddress(p, a, t - 1);
    } else {
      var s := BlockSize(p.tiers, t);
      assert a.offset == s * (a.offset / s) + a.offset % s;
      assert s * id.value == id.value * s;
    }
  }

  // ----- Size classes -----

  lemma TierOfBlockSize(tiers: nat, t: nat)
    requires t < tiers
    ensures TierOf(tiers, BlockSize(tiers, t)) == Some(t)
  {
    TierOfUnique(tiers, BlockSize(tiers, t), t);
  }

  lemma TierOfUnique(tiers: nat, size: nat, t: nat)
    requires t < tiers && size <= BlockSize(tiers, t)
    requires t == tiers - 1 || BlockSize(tiers, t + 1) < size
    ensures TierOf(tiers, size) == Some(t)
  {
    var r := TierOf(tiers, size);
    BlockSizeMono(tiers, 0, t);
    if r.value < t {
      BlockSizeMono(tiers, r.value + 1, t);
    } else if r.value > t {
      BlockSizeMono(tiers, t + 1, r.value);
    }
  }

  // Inside realloc the old block is still live after the new one was obtained.
  lemma LocateIsDeallocTarget(h: Heap, p: Ptr, size: nat)
    requires Inv(h) && Locate(h.pool, p).Some? && Locate(h.pool, p).value in h.live
    requires Alloc(h, size).1 != Null
    ensures var x := Locate(h.pool, p).value;
      && Inv(Alloc(h, size).0)
      && x in Alloc(h, size).0.live
      && DeallocTarget(Alloc(h, size).0, p, BlockSize(h.pool.tiers, x.tier)) == Some(x)
  {
    var x := Locate(h.pool, p).value;
    LocateFromAddress(h.pool, p, h.pool.tiers - 1);
    TierOfBlockSize(h.pool.tiers, x.tier);
    AllocInv(h, size);
  }

  // ----- Every operation keeps the invariant -----

  lemma AllocInv(h: Heap, size: nat)
    requires Inv(h)
    ensures Inv(Alloc(h, size).0)
    ensures Alloc(h, size).1 == Null ==> Alloc(h, size).0 == h
  {
    var tier := TierOf(h.pool.tiers, size);
    if tier.Some? {
      ObtainCanonical(h.pool, h.live, tier.value);
      ObtainBytes(h.pool, h.live, tier.value);
      var (q, id) := Obtain(h.pool, tier.value);
      if id.Some? {
        var x := Block(tier.value, id.value);
        LiveBytesRemove(q.tiers, h.live + {x}, x);
        assert h.live + {x} - {x} == h.live;
      }
    }
  }

  lemma ReleaseInv(h: Heap, x: Block)
    requires Inv(h) && x in h.live
    ensures BlockSize(h.pool.tiers, x.tier) <= h.used
    ensures Inv(Release(h, x))
  {
    LiveBytesRemove(h.pool.tiers, h.live, x);
    RecycleCanonical(h.pool, h.live, x);
    RecycleBytes(h.pool, h.live, x);
  }

  lemma MoveInv(h: Heap, p: Ptr, x: Block, size: nat)
    requires Inv(h) && Locate(h.pool, p) == Some(x) && x in h.live
    ensures Inv(Move(h, p, x, size).0)
  {
    AllocInv(h, size);
    if Alloc(h, size).1 != Null {
      LocateIsDeallocTarget(h, p, size);
      ReleaseInv(Alloc(h, size).0, x);
    }
  }

  lemma ReallocInv(h: Heap, p: Ptr, size: nat)
    requires Inv(h) && Owned(h, Locate(h.pool, p))
    ensures Inv(Realloc(h, p, size).0)
  {
    var x := Locate(h.pool, p);
    if p == Null {
      AllocInv(h, size);
    } else if x.Some? {
      if size == 0 {
        ReleaseInv(h, x.value);
      } else {
        hide Inv, Move, BlockSize;
        MoveInv(h, p, x.value, size);
      }
    }
  }
}
