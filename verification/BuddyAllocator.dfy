/**
 The allocator itself: a byte buffer, a packed bitmap and an array of chain heads, rewritten in place.
 Each method is proved to compute the corresponding transition of BuddyPool or BuddyHeap, and to leave
 the bytes of every block alone that stays in client hands.
 */
module BuddyAllocator {
  import opened Prelude
  import opened BuddyGeometry
  import opened BuddyPool
  import opened BuddyHeap
  import opened BuddyFlags
  import opened BuddyRecords
  import opened BuddyMemory
  import opened BuddyTheorems
  import opened BuddyCalls

  lemma PoolFitsU32(tiers: nat)
    requires 1 <= tiers <= MAX_TIERS
    ensures Capacity(tiers) <= 0x8000_0000
    ensures Capacity(MAX_TIERS) == 0x8000_0000
  {
    Pow2Mono(tiers - 1, MAX_TIERS - 1);
    Pow2Add(9, 9);
    Pow2Add(9, 18);
    assert Pow2(9) == 512;
  }

  lemma CanonicalOfInv(h: Heap)
    requires Inv(h)
    ensures Canonical(h.pool, h.live) && WellShaped(h.pool)
  {
  }

  lemma AllocFits(h: Heap, size: nat)
    requires Inv(h)
    ensures Canonical(h.pool, h.live)
    ensures Inv(Alloc(h, size).0) && Alloc(h, size).0.used <= 0x8000_0000
  {
    AllocInv(h, size);
    PoolFitsU32(h.pool.tiers);
  }

  lemma RootInTree(tiers: nat)
    requires 1 <= tiers
    ensures InTree(tiers, Block(0, 0))
  {
  }

  class BuddyAllocatorDetails {
    const capacity: u32
    const tierNum: u32
    const chunk: array<MemByte>
    const flags: array<bv8>
    const freeChainHead: array<Ptr>
    var usedBytes: u32
    var hwmBytes: u32

    // What the three buffers represent, and the blocks handed out to clients.
    ghost var pool: Pool
    ghost var live: set<Block>

    // ----- Representation -----

    ghost predicate DistinctBuffers() {
      && chunk as object != flags
      && chunk as object != freeChainHead
      && flags as object != freeChainHead
    }

    ghost predicate Rep()
      reads this, flags, chunk, freeChainHead
    {
      && 1 <= tierNum <= MAX_TIERS
      && pool.tiers == tierNum
      && capacity == Capacity(tierNum)
      && DistinctBuffers()
      && chunk.Length == capacity && freeChainHead.Length == tierNum
      && WellShaped(pool)
      && FlagsOk(tierNum, flags[..], pool.bits)
      && RecordsOk(chunk[..], pool, freeChainHead[..])
    }

    ghost function Model(): Heap
      reads this
    {
      Heap(pool, live, usedBytes, hwmBytes)
    }

    ghost predicate Valid()
      reads this, flags, chunk, freeChainHead
    {
      Rep() && Inv(Model())
    }

    // Round a size up to a power of two of at least sixteen bytes, capped at 2^31.
    static method RoundUp(size: u32) returns (tiers: nat, cap: u32)
      ensures 1 <= tiers <= MAX_TIERS && cap == Capacity(tiers)
      ensures if size <= 0x8000_0000 then size <= cap && (cap == 16 || cap / 2 < size) else cap == 0x8000_0000
    {
      tiers, cap := 1, 16;
      while cap < size
        invariant 1 <= tiers < MAX_TIERS && cap == Capacity(tiers) && cap < 0x8000_0000
        invariant cap == 16 || cap / 2 < size
        decreases MAX_TIERS - tiers
      {
        PoolFitsU32(tiers + 1);
        cap := cap * 2;
        tiers := tiers + 1;
        PoolFitsU32(tiers);
        if cap == 0x8000_0000 {
          break;
        }
      }
    }

    constructor (size: u32)
      ensures Valid() && fresh(chunk) && fresh(flags) && fresh(freeChainHead)
      ensures Model() == Initial(tierNum)
      ensures capacity == Capacity(tierNum)
      ensures if size <= 0x8000_0000 then size <= capacity && (capacity == 16 || capacity / 2 < size)
              else capacity == 0x8000_0000
    {
      var tiers, cap := RoundUp(size);
      capacity := cap;
      tierNum := tiers;
      chunk := new MemByte[cap];
      flags := new bv8[FlagsLen(tiers)](_ => 0);
      freeChainHead := new Ptr[tiers](_ => Null);
      usedBytes, hwmBytes := 0, 0;
      pool := Pool(tiers, {}, NoChains(tiers));
      live := {};
      new;
      hide FlagsOk, RecordsOk, Inv, Canonical, BuddyPool.Recycle, InTree, Slot, Start, End, BlockSize,
        Granules, Capacity, Pow2;
      ZeroFlags(tierNum, flags[..]);
      EmptyRecords(chunk[..], pool, freeChainHead[..]);
      GiveBirth();
    }

    // Mark the whole pool in use and recycle it, which puts it on the top chain.
    method GiveBirth()
      requires Rep() && pool == Pool(tierNum, {}, NoChains(tierNum)) && live == {} && usedBytes == hwmBytes == 0
      modifies flags, chunk, freeChainHead, this`pool
      ensures Valid() && Model() == Initial(tierNum)
    {
      hide FlagsOk, RecordsOk, Inv, Canonical, BuddyPool.Recycle, Kept, InTree, Slot, Start, End, BlockSize,
        Granules, Capacity, Pow2;
      RootInTree(tierNum);
      SetBlockInUse(0, 0, true);
      assert pool == Unborn(tierNum);
      UnbornCanonical(tierNum);
      InitialInv(tierNum);
      Recycle(0, 0, {Block(0, 0)});
    }

    // ----- The bitmap -----

    method WriteFlag(idx: nat, val: bool)
      requires idx / 8 < flags.Length
      modifies flags
      ensures flags[..] == WithFlag(old(flags[..]), idx, val)
    {
      ghost var before := flags[..];
      var offset := idx / 8;
      var mask := Mask(idx % 8);
      if val {
        flags[offset] := flags[offset] | mask;
      } else {
        flags[offset] := flags[offset] & (mask ^ 0xFF);
      }
      assert flags[offset] == WithBit(before[offset], idx % 8, val);
    }

    method SetBlockInUse(tier: nat, blockId: nat, val: bool)
      requires Rep() && InTree(tierNum, Block(tier, blockId))
      modifies flags, this`pool
      ensures Rep()
      ensures var x := Block(tier, blockId);
        pool == old(pool).(bits := if val then old(pool).bits + {x} else old(pool).bits - {x})
    {
      ghost var x := Block(tier, blockId);
      ghost var m, heads := chunk[..], freeChainHead[..];
      FlagsOkUpdate(tierNum, flags[..], pool.bits, x, val);
      WriteFlag(Pow2(tier) + blockId, val);
      assert chunk[..] == m && freeChainHead[..] == heads;
      ghost var bits := if val then pool.bits + {x} else pool.bits - {x};
      RecordsIgnoreBits(m, pool, heads, bits);
      pool := pool.(bits := bits);
    }

    method IsBlockInUse(tier: nat, blockId: nat) returns (inUse: bool)
      requires Rep() && InTree(tierNum, Block(tier, blockId))
      ensures inUse <==> Block(tier, blockId) in pool.bits
    {
      FlagIndexInside(tierNum, Block(tier, blockId));
      assert FlagAgrees(tierNum, flags[..], pool.bits, Block(tier, blockId));
      var idx := Pow2(tier) + blockId;
      inUse := flags[idx / 8] & Mask(idx % 8) != 0;
    }

    // ----- Memory -----

    method StorePtr(a: nat, p: Ptr)
      requires a + 8 <= chunk.Length
      modifies chunk
      ensures chunk[..] == Store(old(chunk[..]), a, p)
    {
      ghost var m := chunk[..];
      forall i | 0 <= i < 8 {
        chunk[a + i] := Fragment(p, i);
      }
      StoreAt(m, a, p);
      assert chunk[..] == Store(m, a, p);
    }

    method LoadPtr(a: nat, ghost p: Ptr) returns (q: Ptr)
      requires a + 8 <= chunk.Length && chunk[..][a..a + 8] == PtrBytes(p)
      ensures q == p
    {
      assert chunk[..][a..a + 8][0] == chunk[a];
      q := chunk[a].p;
    }

    // if (p) p->Prev = v
    method StorePrevOf(p: Ptr, v: Ptr)
      requires InMemory(chunk[..], p)
      modifies chunk
      ensures chunk[..] == SetPrev(old(chunk[..]), p, v)
    {
      if p != Null {
        StorePtr(p.offset, v);
      }
    }

    // if (p) p->Next = v
    method StoreNextOf(p: Ptr, v: Ptr)
      requires InMemory(chunk[..], p)
      modifies chunk
      ensures chunk[..] == SetNext(old(chunk[..]), p, v)
    {
      if p != Null {
        StorePtr(p.offset + 8, v);
      }
    }

    method MemCopy(dst: nat, src: nat, n: nat)
      requires dst + n <= chunk.Length && src + n <= chunk.Length
      requires dst + n <= src || src + n <= dst
      modifies chunk
      ensures chunk[..] == old(chunk[..])[..dst] + old(chunk[..])[src..src + n] + old(chunk[..])[dst + n..]
    {
      var i := 0;
      while i < n
        invariant 0 <= i <= n
        invariant forall k :: 0 <= k < chunk.Length ==>
          chunk[k] == if dst <= k < dst + i then old(chunk[src + k - dst]) else old(chunk[k])
      {
        chunk[dst + i] := chunk[src + i];
        i := i + 1;
      }
    }

    // ----- Facts about the current state -----

    lemma HeadTellsEmpty(tier: nat)
      requires Rep() && tier < tierNum
      ensures freeChainHead[tier] == Null <==> pool.chains[tier] == []
    {
      HeadInMemory(chunk[..], pool, freeChainHead[..], tier);
    }

    lemma RemainInPlace(p: Ptr)
      requires Valid() && Owned(Model(), Locate(pool, p))
      ensures Kept(tierNum, chunk[..], chunk[..], live)
      ensures Locate(pool, p).Some? ==>
        Carried(chunk[..], p, chunk[..], p, BlockSize(tierNum, Locate(pool, p).value.tier))
    {
      hide Inv, RecordsOk, FlagsOk, Kept, BlockSize, Capacity, Start;
      CanonicalOfInv(Model());
      NothingWritten(live);
      if Locate(pool, p).Some? {
        LocateFromAddress(pool, p, tierNum - 1);
        LiveBlockFits(Model(), Locate(pool, p).value);
      }
    }

    lemma NothingWritten(owned: set<Block>)
      requires Rep() && Canonical(pool, owned)
      ensures Kept(tierNum, chunk[..], chunk[..], owned)
    {
      ObtainEntry(pool, owned);
      KeptRefl(tierNum, chunk[..], owned);
    }

    // ----- Records: the pointer surgery alone -----

    method PushAt(t: nat, fbr: nat)
      requires t < freeChainHead.Length && DistinctBuffers()
      requires fbr + 16 <= chunk.Length && InMemory(chunk[..], freeChainHead[t])
      modifies chunk, freeChainHead
      ensures chunk[..] == PushMem(old(chunk[..]), old(freeChainHead[t]), fbr)
      ensures freeChainHead[..] == old(freeChainHead[..])[t := At(fbr)]
    {
      var head := freeChainHead[t];
      StorePrevOf(head, At(fbr));
      StorePtr(fbr + 8, head);
      StorePtr(fbr, Null);
      freeChainHead[t] := At(fbr);
    }

    method PopAt(t: nat, fbr: nat, ghost next: Ptr)
      requires t < freeChainHead.Length && DistinctBuffers()
      requires HoldsRecord(chunk[..], fbr, Null, next) && InMemory(chunk[..], next)
      modifies chunk, freeChainHead
      ensures chunk[..] == UnlinkMem(old(chunk[..]), Null, next)
      ensures freeChainHead[..] == old(freeChainHead[..])[t := next]
    {
      var n := LoadPtr(fbr + 8, next);
      freeChainHead[t] := n;
      StorePrevOf(n, Null);
    }

    method UnlinkAt(t: nat, fbr: nat, ghost prev: Ptr, ghost next: Ptr)
      requires t < freeChainHead.Length && DistinctBuffers()
      requires HoldsRecord(chunk[..], fbr, prev, next) && InMemory(chunk[..], prev) && InMemory(chunk[..], next)
      modifies chunk, freeChainHead
      ensures chunk[..] == UnlinkMem(old(chunk[..]), prev, next)
      ensures freeChainHead[..] == old(freeChainHead[..])
        [t := if old(freeChainHead[t]) != At(fbr) then old(freeChainHead[t]) else if prev != Null then prev else next]
    {
      var p := LoadPtr(fbr, prev);
      var n := LoadPtr(fbr + 8, next);
      StoreNextOf(p, n);
      StorePrevOf(n, p);
      if At(fbr) == freeChainHead[t] {
        freeChainHead[t] := if p != Null then p else n;
      }
    }

    // ----- Free chains -----

    // Push the record of a block in front of its tier's chain.
    method PushRecord(tier: nat, blockId: nat)
      requires Rep() && ChainsApart(pool)
      requires InTree(tierNum, Block(tier, blockId)) && OffChains(pool, Block(tier, blockId))
      modifies chunk, freeChainHead, this`pool
      ensures Rep()
      ensures pool == Pushed(old(pool), Block(tier, blockId))
      ensures Slot(tierNum, Block(tier, blockId)) + 16 <= chunk.Length
      ensures InMemory(old(chunk[..]), old(freeChainHead[tier]))
      ensures chunk[..] == PushMem(old(chunk[..]), old(freeChainHead[tier]), Slot(tierNum, Block(tier, blockId)))
    {
      hide ChainsApart, RecordsOk, FlagsOk, OffChains, PushMem, Pow2;
      ghost var x := Block(tier, blockId);
      ghost var heads, bitmap := freeChainHead[..], flags[..];
      PushRecords(chunk[..], pool, heads, x);
      assert heads[tier] == freeChainHead[tier];
      InsidePool(tierNum, x);
      PoolFitsU32(tierNum);
      SlotInside(tierNum, x);
      var blockSize: u32 := BlockSize(tierNum, tier);
      var fbr: u32 := (blockId + 1) * blockSize - 16;
      PushAt(tier, fbr);
      assert flags[..] == bitmap;
      pool := Pushed(pool, x);
    }

    // Take the first block off a chain.
    method PopRecord(tier: nat) returns (blockId: nat)
      requires Rep() && ChainsApart(pool) && tier < tierNum && freeChainHead[tier] != Null
      modifies chunk, freeChainHead, this`pool
      ensures Rep()
      ensures old(pool).chains[tier] != [] && blockId == old(pool).chains[tier][0]
      ensures pool == old(pool).(chains := old(pool).chains[tier := old(pool).chains[tier][1..]])
      ensures var rs := Slots(tierNum, tier, old(pool).chains[tier]);
        && InMemory(old(chunk[..]), Link(rs, 0 - 1)) && InMemory(old(chunk[..]), Link(rs, 1))
        && chunk[..] == UnlinkMem(old(chunk[..]), Link(rs, 0 - 1), Link(rs, 1))
    {
      hide ChainsApart, RecordsOk, FlagsOk, Slots, UnlinkMem, InMemory, HoldsRecord, Start, Granules;
      ghost var heads, bitmap := freeChainHead[..], flags[..];
      HeadTellsEmpty(tier);
      ghost var rs := Slots(tierNum, tier, pool.chains[tier]);
      FirstRecord(chunk[..], pool, heads, tier);
      assert heads[tier] == freeChainHead[tier];
      var fbr := freeChainHead[tier].offset;
      var blockSize := BlockSize(tierNum, tier);
      blockId := fbr / blockSize;
      PopAt(tier, fbr, Link(rs, 1));
      assert flags[..] == bitmap;
      pool := pool.(chains := pool.chains[tier := pool.chains[tier][1..]]);
    }

    // Take a given block out of the middle of its chain.
    method UnlinkRecord(tier: nat, blockId: nat, ghost i: nat)
      requires Rep() && ChainsApart(pool) && tier < tierNum
      requires i < |pool.chains[tier]| && pool.chains[tier][i] == blockId
      modifies chunk, freeChainHead, this`pool
      ensures Rep()
      ensures pool == Unlinked(old(pool), tier, i)
      ensures var rs := Slots(tierNum, tier, old(pool).chains[tier]);
        && InMemory(old(chunk[..]), Link(rs, i - 1)) && InMemory(old(chunk[..]), Link(rs, i + 1))
        && chunk[..] == UnlinkMem(old(chunk[..]), Link(rs, i - 1), Link(rs, i + 1))
    {
      hide ChainsApart, RecordsOk, FlagsOk, Slots, UnlinkMem, Skip, InMemory, HoldsRecord, Start, Granules;
      ghost var heads, bitmap := freeChainHead[..], flags[..];
      ghost var rs := Slots(tierNum, tier, pool.chains[tier]);
      RecordInChain(chunk[..], pool, heads, tier, i);
      assert heads[tier] == freeChainHead[tier];
      var blockSize := BlockSize(tierNum, tier);
      var fbr := (blockId + 1) * blockSize - 16;
      UnlinkAt(tier, fbr, Link(rs, i - 1), Link(rs, i + 1));
      assert freeChainHead[..] == heads[tier := if i == 0 then Link(rs, 1) else heads[tier]];
      assert flags[..] == bitmap;
      pool := Unlinked(pool, tier, i);
    }

    // ----- Splitting and coalescing -----

    // `owned` are the blocks considered handed out on entry; the recycled one is among them.
    method Recycle(tier: nat, blockId: nat, ghost owned: set<Block>)
      requires Rep() && Canonical(pool, owned) && Block(tier, blockId) in owned
      modifies flags, chunk, freeChainHead, this`pool
      ensures Rep()
      ensures pool == BuddyPool.Recycle(old(pool), Block(tier, blockId))
      ensures Kept(tierNum, old(chunk[..]), chunk[..], owned - {Block(tier, blockId)})
      decreases tier
    {
      hide Canonical, ChainsApart, Bystanders, AllUnrelated, Unrelated, OffChains, Kept, RecordsOk, FlagsOk, InTree,
        Slot, Start, End, BlockSize, Granules, Capacity, Pow2,
        Slots, Link, InMemory, PushMem, UnlinkMem, Pushed, Unlinked, PushFree, Merge;
      ghost var x := Block(tier, blockId);
      ghost var p := pool;
      ghost var rest := owned - {x};
      RecycleEntry(p, owned, x);
      assert chunk.Length == Capacity(tierNum);
      SetBlockInUse(tier, blockId, false);
      ghost var q := pool;
      var buddyBlockId := BuddyId(blockId);
      var buddyInUse := false;
      if tier > 0 {
        buddyInUse := IsBlockInUse(tier, buddyBlockId);
      }
      ghost var m, heads := chunk[..], freeChainHead[..];
      assert m == old(chunk[..]) && heads[tier] == freeChainHead[tier];
      if tier == 0 || buddyInUse {
        PushRecord(tier, blockId);
        PushKeeps(m, q, heads, x, rest);
      } else {
        ghost var i := MergeEntry(p, owned, x);
        UnlinkRecord(tier, buddyBlockId, i);
        UnlinkKeeps(m, q, tier, i, rest);
        ghost var n := chunk[..];
        Recycle(tier - 1, blockId / 2, rest + {Parent(x)});
        KeptTrans(tierNum, m, n, chunk[..], rest);
      }
    }

    // Take the first free block of a tier.
    method TakeFirst(tier: nat, ghost owned: set<Block>) returns (blockId: nat)
      requires Rep() && Canonical(pool, owned) && tier < tierNum && freeChainHead[tier] != Null
      modifies flags, chunk, freeChainHead, this`pool
      ensures Rep()
      ensures old(pool).chains[tier] != [] && blockId == old(pool).chains[tier][0]
      ensures pool == PopFree(old(pool), tier)
      ensures Kept(tierNum, old(chunk[..]), chunk[..], owned)
    {
      hide Canonical, ChainsApart, Bystanders, AllUnrelated, Unrelated, OffChains, Kept, FlagsOk, RecordsOk,
        InTree, Slot, Start, End, BlockSize, Granules, Capacity, Pow2;
      ghost var p := pool;
      ghost var m := chunk[..];
      HeadTellsEmpty(tier);
      ObtainEntry(p, owned);
      FirstInTree(p, owned, tier);
      blockId := PopRecord(tier);
      UnlinkKeeps(m, p, tier, 0, owned);
      SetBlockInUse(tier, blockId, true);
    }

    // Split the upper block x, keep its left half and recycle its right half.
    method SplitUpper(tier: nat, upperBlockId: nat, ghost owned: set<Block>) returns (blockId: nat)
      requires 0 < tier < tierNum && Rep()
      requires Block(tier - 1, upperBlockId) !in owned && Canonical(pool, owned + {Block(tier - 1, upperBlockId)})
      modifies flags, chunk, freeChainHead, this`pool
      ensures Rep() && blockId == 2 * upperBlockId
      ensures var x := Block(tier - 1, upperBlockId);
        pool == BuddyPool.Recycle(Split(old(pool), x), RightChild(x))
      ensures Kept(tierNum, old(chunk[..]), chunk[..], owned)
    {
      hide Canonical, Kept, FlagsOk, RecordsOk, InTree, Slot, Start, End, BlockSize, Granules, Capacity, Pow2;
      ghost var x := Block(tier - 1, upperBlockId);
      ghost var q := pool;
      ghost var n := chunk[..];
      ghost var owned' := owned + {LeftChild(x), RightChild(x)};
      SplitEntry(q, owned, x);
      var blockId1 := 2 * upperBlockId;
      var blockId2 := blockId1 + 1;
      SetBlockInUse(tier, blockId1, true);
      SetBlockInUse(tier, blockId2, true);
      assert pool.bits == Split(q, x).bits;
      Recycle(tier, blockId2, owned');
      KeptSubset(tierNum, n, chunk[..], owned' - {RightChild(x)}, owned);
      blockId := blockId1;
    }

    method Obtain(tier: nat, ghost owned: set<Block>) returns (blockId: Option<nat>)
      requires Rep() && Canonical(pool, owned) && tier < tierNum
      modifies flags, chunk, freeChainHead, this`pool
      ensures Rep()
      ensures (pool, blockId) == BuddyPool.Obtain(old(pool), tier)
      ensures Kept(tierNum, old(chunk[..]), chunk[..], owned)
      decreases tier
    {
      hide Canonical, Kept, FlagsOk, RecordsOk, InTree, Slot, Start, End, BlockSize, Granules, Capacity, Pow2;
      ghost var p := pool;
      ghost var m := chunk[..];
      NothingWritten(owned);
      HeadTellsEmpty(tier);
      if freeChainHead[tier] != Null {
        var id := TakeFirst(tier, owned);
        return Some(id);
      }
      var upperBlockId := None;
      if tier > 0 {
        upperBlockId := Obtain(tier - 1, owned);
      }
      if upperBlockId.Some? {
        ghost var n := chunk[..];
        ObtainCanonical(p, owned, tier - 1);
        var id := SplitUpper(tier, upperBlockId.value, owned);
        KeptTrans(tierNum, m, n, chunk[..], owned);
        return Some(id);
      }
      return None;
    }

    // ----- Public operations -----

    method TierOf(size: u32) returns (tier: Option<nat>)
      requires 1 <= tierNum <= MAX_TIERS
      ensures tier == BuddyHeap.TierOf(tierNum, size)
      ensures tier.Some? ==> tier.value < tierNum
    {
      var s := 16;
      var t: int := tierNum - 1;
      while t >= 0
        invariant -1 <= t < tierNum
        invariant t >= 0 ==> s == BlockSize(tierNum, t) && BuddyHeap.TierOf(tierNum, size) == TierFrom(tierNum, size, t)
        invariant t < 0 ==> BuddyHeap.TierOf(tierNum, size) == None
      {
        if size <= s {
          return Some(t);
        }
        s := 2 * s;
        t := t - 1;
        if t >= 0 {
          ChildBytes(tierNum, Block(t, 0));
        }
      }
      return None;
    }

    method GetBlockId(tier: nat, p: Ptr) returns (blockId: Option<nat>)
      requires 1 <= tierNum <= MAX_TIERS && tier < tierNum && capacity == Capacity(tierNum)
      ensures blockId == BlockIdOf(tierNum, tier, p)
    {
      hide BlockSize, Capacity;
      var valid := p != Null && p.offset >= 0 && p.offset < capacity && p.offset % 16 == 0;
      if !valid {
        return None;
      }
      var blockSize := BlockSize(tierNum, tier);
      if p.offset % blockSize != 0 {
        return None;
      }
      return Some(p.offset / blockSize);
    }

    method LocateBlockInUse(p: Ptr) returns (found: Option<Block>)
      requires Rep()
      ensures found == Locate(pool, p)
    {
      hide RecordsOk, FlagsOk, Pow2, Capacity, Granules;
      var t := tierNum;
      found := None;
      while t != 0
        invariant 0 <= t <= tierNum
        invariant found == None
        invariant t > 0 ==> Locate(pool, p) == LocateFrom(pool, p, t - 1)
        invariant t == 0 ==> Locate(pool, p) == None
      {
        t := t - 1;
        var blockId := GetBlockId(t, p);
        if blockId.None? {
          break;
        }
        IdInTree(tierNum, t, p);
        var inUse := IsBlockInUse(t, blockId.value);
        if inUse {
          found := Some(Block(t, blockId.value));
          break;
        }
      }
    }

    method Available() returns (bytes: u32)
      requires Valid()
      ensures bytes == BuddyHeap.Available(pool)
    {
      PoolFitsU32(tierNum);
      var t := 0;
      while t < tierNum
        invariant 0 <= t <= tierNum
        invariant FirstFree(pool, 0) == FirstFree(pool, t)
      {
        HeadInMemory(chunk[..], pool, freeChainHead[..], t);
        if freeChainHead[t] != Null {
          BlockSizeMono(tierNum, 0, t);
          return BlockSize(tierNum, t);
        }
        t := t + 1;
      }
      return 0;
    }

    method Alloc(size: u32) returns (p: Ptr)
      requires Valid()
      modifies this, flags, chunk, freeChainHead
      ensures Valid()
      ensures (Model(), p) == BuddyHeap.Alloc(old(Model()), size)
      ensures AllocSays(tierNum, old(live), size, live, p)
      ensures Kept(tierNum, old(chunk[..]), chunk[..], old(live))
    {
      hide Inv, Canonical, Kept, RecordsOk, FlagsOk, LiveBytes, FreeBytes, BuddyPool.Obtain, BuddyHeap.TierOf, Granules,
        AllocSays;
      AllocFits(Model(), size);
      AllocMeans(Model(), size);
      NothingWritten(live);
      var tier := TierOf(size);
      if tier.None? {
        return Null;
      }
      var blockId := Obtain(tier.value, live);
      if blockId.None? {
        return Null;
      }
      var bsize := BlockSize(tierNum, tier.value);
      usedBytes := usedBytes + bsize;
      if usedBytes > hwmBytes {
        hwmBytes := usedBytes;
      }
      live := live + {Block(tier.value, blockId.value)};
      return At(blockId.value * bsize);
    }

    // The shared tail of dealloc and free.
    method Release(tier: nat, blockId: nat)
      requires Valid() && Block(tier, blockId) in live
      modifies this, flags, chunk, freeChainHead
      ensures Valid()
      ensures BlockSize(tierNum, tier) <= old(usedBytes)
      ensures Model() == BuddyHeap.Release(old(Model()), Block(tier, blockId))
      ensures Kept(tierNum, old(chunk[..]), chunk[..], live)
    {
      ghost var x := Block(tier, blockId);
      ReleaseInv(Model(), x);
      Recycle(tier, blockId, live);
      usedBytes := usedBytes - BlockSize(tierNum, tier);
      live := live - {x};
    }

    method Dealloc(p: Ptr, size: u32)
      requires Valid() && Owned(Model(), DeallocTarget(Model(), p, size))
      modifies this, flags, chunk, freeChainHead
      ensures Valid()
      ensures Model() == BuddyHeap.Dealloc(old(Model()), p, size)
      ensures DeallocSays(tierNum, old(live), p, size, live)
      ensures Kept(tierNum, old(chunk[..]), chunk[..], live)
    {
      hide DeallocSays;
      NothingWritten(live);
      DeallocMeans(Model(), p, size);
      var tier := TierOf(size);
      if tier.None? {
        return;
      }
      var blockId := GetBlockId(tier.value, p);
      if blockId.Some? {
        Release(tier.value, blockId.value);
      }
    }

    method Free(p: Ptr)
      requires Valid() && Owned(Model(), Locate(pool, p))
      modifies this, flags, chunk, freeChainHead
      ensures Valid()
      ensures Model() == BuddyHeap.Free(old(Model()), p)
      ensures FreeSays(tierNum, old(live), p, live)
      ensures Kept(tierNum, old(chunk[..]), chunk[..], live)
    {
      hide FreeSays;
      NothingWritten(live);
      FreeMeans(Model(), p);
      var found := LocateBlockInUse(p);
      if found.Some? {
        Release(found.value.tier, found.value.id);
      }
    }

    // Move the contents of the live block x at p to a new block and release x.
    method MoveTo(p: Ptr, x: Block, size: u32, n: nat) returns (r: Ptr)
      requires Valid() && Locate(pool, p) == Some(x) && x in live
      requires n <= size && n <= BlockSize(tierNum, x.tier)
      modifies this, flags, chunk, freeChainHead
      ensures Valid()
      ensures (Model(), r) == Move(old(Model()), p, x, size)
      ensures Kept(tierNum, old(chunk[..]), chunk[..], old(live) * live)
      ensures r != Null ==> Carried(old(chunk[..]), p, chunk[..], r, n)
    {
      hide Inv, RecordsOk, FlagsOk, Kept, SamePrefix, Carried, Pow2, BuddyHeap.Alloc, BuddyHeap.Dealloc,
        BuddyHeap.Locate, DeallocTarget, Move;
      ghost var h, m := Model(), chunk[..];
      r := Alloc(size);
      if r != Null {
        ghost var y := MoveEntry(h, p, x, size);
        ghost var a := chunk[..];
        CopyBytes(r.offset, p.offset, n, x, y);
        ghost var c := chunk[..];
        Dealloc(p, BlockSize(tierNum, x.tier));
        MovedBytes(tierNum, m, a, c, chunk[..], h.live, x, y, n);
        assert live == h.live + {y} - {x};
      } else {
        MoveRefused(h, p, x, size);
        assert h.live * live == h.live;
      }
    }

    // memcpy between two blocks that are both in client hands.
    method CopyBytes(dst: nat, src: nat, n: nat, ghost x: Block, ghost y: Block)
      requires Valid() && x in live && y in live && x != y && x.tier < tierNum && y.tier < tierNum
      requires src == Start(tierNum, x) && dst == Start(tierNum, y)
      requires n <= BlockSize(tierNum, x.tier) && n <= BlockSize(tierNum, y.tier)
      modifies chunk
      ensures Valid() && Model() == old(Model())
      ensures Kept(tierNum, old(chunk[..]), chunk[..], live - {y})
      ensures SamePrefix(tierNum, old(chunk[..]), x, chunk[..], y, n)
    {
      hide RecordsOk, FlagsOk, ChainsApart, OffChains, Kept, LiveBytes, FreeBytes;
      ghost var m, heads, bitmap := chunk[..], freeChainHead[..], flags[..];
      CopyEntry(pool, live, x, y);
      MemCopy(dst, src, n);
      assert freeChainHead[..] == heads && flags[..] == bitmap;
      ghost var c := chunk[..];
      assert c[dst..dst + n] == m[src..src + n];
      OutsideWriteKeepsRecords(m, c, pool, heads, y);
      OutsideWriteKeeps(tierNum, m, c, y, live - {y});
    }

    method Realloc(p: Ptr, size: u32) returns (r: Ptr)
      requires Valid() && Owned(Model(), Locate(pool, p))
      modifies this, flags, chunk, freeChainHead
      ensures Valid()
      ensures (Model(), r) == BuddyHeap.Realloc(old(Model()), p, size)
      ensures ReallocSays(tierNum, old(live), p, size, live, r)
      ensures Kept(tierNum, old(chunk[..]), chunk[..], old(live) * live)
      ensures var x := Locate(old(pool), p);
        r != Null && x.Some? ==>
          var blockSize := BlockSize(tierNum, x.value.tier);
          Carried(old(chunk[..]), p, chunk[..], r, if size < blockSize then size else blockSize)
    {
      hide Inv, Canonical, Kept, Carried, RecordsOk, FlagsOk, ReallocSays, AllocSays, FreeSays, BlockSize, Locate,
        BuddyHeap.Alloc, BuddyHeap.Free, BuddyHeap.ReallocLive;
      RemainInPlace(p);
      ReallocMeans(Model(), p, size);
      ghost var before, m := live, chunk[..];
      if p == Null {
        NullNowhere(pool);
        r := Alloc(size);
        KeptFewer(tierNum, m, chunk[..], before, before * live);
        return;
      }
      if size == 0 {
        Free(p);
        KeptFewer(tierNum, m, chunk[..], live, before * live);
        return Null;
      }
      var found := LocateBlockInUse(p);
      if found.None? {
        assert before * live == live;
        return Null;
      }
      InvShape(Model());
      r := ReallocLive(p, found.value, size);
    }

    // realloc of the live block x at p.
    method ReallocLive(p: Ptr, x: Block, size: u32) returns (r: Ptr)
      requires Valid() && size > 0 && Locate(pool, p) == Some(x) && x in live && x.tier < tierNum
      modifies this, flags, chunk, freeChainHead
      ensures Valid()
      ensures (Model(), r) == BuddyHeap.ReallocLive(old(Model()), p, x, size)
      ensures Kept(tierNum, old(chunk[..]), chunk[..], old(live) * live)
      ensures r != Null ==>
        var blockSize := BlockSize(tierNum, x.tier);
        Carried(old(chunk[..]), p, chunk[..], r, if size < blockSize then size else blockSize)
    {
      RemainInPlace(p);
      var tier := x.tier;
      var blockSize := BlockSize(tierNum, tier);
      if tier == 0 && size > blockSize {
        return Null;
      }
      if tier == tierNum - 1 && size <= blockSize {
        return p;
      }
      if size > blockSize {
        r := MoveTo(p, x, size, blockSize);
        return;
      }
      if size <= blockSize / 2 {
        r := MoveTo(p, x, size, size);
        return;
      }
      return p;
    }

    method ResetHwm() returns (hwm: u32)
      requires Valid()
      modifies this`hwmBytes
      ensures Valid() && hwm == old(hwmBytes) && Model() == old(Model()).(hwm := 0)
    {
      hwm := hwmBytes;
      hwmBytes := 0;
    }
  }

  lemma NullNowhere(p: Pool)
    requires p.tiers > 0
    ensures Locate(p, Null) == None
  {
  }

  lemma KeptFewer(tiers: nat, m: seq<MemByte>, n: seq<MemByte>, s: set<Block>, t: set<Block>)
    requires Kept(tiers, m, n, s) && t <= s
    ensures Kept(tiers, m, n, t)
  {
  }

  lemma RecordsIgnoreBits(m: seq<MemByte>, p: Pool, heads: seq<Ptr>, bits: set<Block>)
    requires RecordsOk(m, p, heads)
    ensures RecordsOk(m, p.(bits := bits), heads)
  {
  }

  // Everything about the i-th record of a chain that taking it out relies on.
  lemma RecordInChain(m: seq<MemByte>, p: Pool, heads: seq<Ptr>, t: nat, i: nat)
    requires RecordsOk(m, p, heads) && ChainsApart(p) && t < p.tiers && i < |p.chains[t]|
    ensures var rs := Slots(p.tiers, t, p.chains[t]);
      && |rs| == |p.chains[t]|
      && rs[i] == (p.chains[t][i] + 1) * BlockSize(p.tiers, t) - 16
      && HoldsRecord(m, rs[i], Link(rs, i - 1), Link(rs, i + 1))
      && (At(rs[i]) == heads[t] <==> i == 0)
      && InMemory(m, Link(rs, i - 1)) && InMemory(m, Link(rs, i + 1))
      && RecordsOk(UnlinkMem(m, Link(rs, i - 1), Link(rs, i + 1)), Unlinked(p, t, i),
                   heads[t := if i == 0 then Link(rs, 1) else heads[t]])
  {
    hide RecordsOk, ChainsApart, UnlinkMem, HoldsRecord, InMemory, Granules, Pow2;
    RecordOfChain(m, p, heads, t, i);
    HeadIsFirst(p, t, i);
    UnlinkRecords(m, p, heads, t, i);
  }

  lemma RecordOfChain(m: seq<MemByte>, p: Pool, heads: seq<Ptr>, t: nat, i: nat)
    requires RecordsOk(m, p, heads) && t < p.tiers && i < |p.chains[t]|
    ensures WellShaped(p) && t < |heads|
    ensures var rs := Slots(p.tiers, t, p.chains[t]);
      heads[t] == Link(rs, 0) && HoldsRecord(m, rs[i], Link(rs, i - 1), Link(rs, i + 1))
  {
    var rs := Slots(p.tiers, t, p.chains[t]);
    assert ChainOk(m, p.tiers, t, heads[t], p.chains[t]);
    assert RecordOk(m, rs, i);
  }

  lemma FirstRecord(m: seq<MemByte>, p: Pool, heads: seq<Ptr>, t: nat)
    requires RecordsOk(m, p, heads) && ChainsApart(p) && t < p.tiers && p.chains[t] != []
    ensures var c := p.chains[t];
      var rs := Slots(p.tiers, t, c);
      && |rs| == |c|
      && heads[t] == At(rs[0]) && rs[0] / BlockSize(p.tiers, t) == c[0]
      && HoldsRecord(m, rs[0], Null, Link(rs, 1))
      && InMemory(m, Null) && InMemory(m, Link(rs, 1))
      && RecordsOk(UnlinkMem(m, Null, Link(rs, 1)), p.(chains := p.chains[t := c[1..]]), heads[t := Link(rs, 1)])
  {
    var c := p.chains[t];
    var x := Block(t, c[0]);
    RecordInChain(m, p, heads, t, 0);
    SlotInside(p.tiers, x);
    IdFromAddress(p.tiers, x, Slot(p.tiers, x));
    assert Skip(c, 0) == c[1..];
  }

  lemma HeadIsFirst(p: Pool, t: nat, i: nat)
    requires WellShaped(p) && ChainsApart(p) && t < p.tiers && i < |p.chains[t]|
    ensures var rs := Slots(p.tiers, t, p.chains[t]);
      At(rs[i]) == Link(rs, 0) <==> i == 0
  {
    ChainSlotsApart(p, t);
    var rs := Slots(p.tiers, t, p.chains[t]);
    if i > 0 {
      assert Apart16(rs[0], rs[i]);
    }
  }

  // Clearing or setting bits moves no block between chains.
  lemma BitsOffChains(p: Pool, q: Pool)
    requires p.tiers == q.tiers && p.chains == q.chains && ChainsApart(p)
    ensures ChainsApart(q)
    ensures forall x :: OffChains(p, x) ==> OffChains(q, x)
  {
    assert forall x :: OnChain(q, x) <==> OnChain(p, x);
  }

  lemma RecycleEntry(p: Pool, owned: set<Block>, x: Block)
    requires Canonical(p, owned) && x in owned
    ensures var q := p.(bits := p.bits - {x});
      && WellShaped(q) && ChainsApart(q) && OffChains(q, x) && Bystanders(q, owned - {x})
      && AllUnrelated(owned - {x}, x)
    ensures InTree(p.tiers, x) && x.tier < p.tiers
    ensures x.tier > 0 ==> InTree(p.tiers, Buddy(x))
    ensures Pushed(p.(bits := p.bits - {x}), x) == PushFree(p, x)
    ensures Buddy(x) in p.bits <==> Buddy(x) in p.bits - {x}
  {
    hide Canonical, ChainsApart, OffChains, Unrelated, Buddy, Pow2;
    CanonicalApart(p, owned);
    OwnedInTree(p, owned);
    BitsOffChains(p, p.(bits := p.bits - {x}));
    BuddyFacts(x);
    if x.tier > 0 {
      InTreeBuddy(p.tiers, x);
    }
  }

  lemma OwnedInTree(p: Pool, owned: set<Block>)
    requires Canonical(p, owned)
    ensures WellShaped(p) && forall y :: y in owned ==> InTree(p.tiers, y)
  {
  }

  lemma MergeEntry(p: Pool, owned: set<Block>, x: Block) returns (i: nat)
    requires Canonical(p, owned) && x in owned && x.tier > 0 && Buddy(x) !in p.bits
    ensures x.tier < |p.chains| && i < |p.chains[x.tier]| && p.chains[x.tier][i] == BuddyId(x.id)
    ensures Unlinked(p.(bits := p.bits - {x}), x.tier, i) == Merge(p, x)
    ensures Merge(p, x).tiers == p.tiers && |Merge(p, x).chains| == |p.chains|
    ensures Canonical(Merge(p, x), owned - {x} + {Parent(x)})
    ensures owned - {x} + {Parent(x)} - {Parent(x)} == owned - {x}
  {
    MergeCanonical(p, owned, x);
    var c := p.chains[x.tier];
    i :| 0 <= i < |c| && c[i] == BuddyId(x.id);
    assert NoDup(c);
    SkipIsWithout(c, i);
  }

  lemma ObtainEntry(p: Pool, owned: set<Block>)
    requires Canonical(p, owned)
    ensures ChainsApart(p) && Bystanders(p, owned)
    ensures forall y :: y in owned ==> InTree(p.tiers, y)
  {
    CanonicalApart(p, owned);
  }

  lemma FirstInTree(p: Pool, owned: set<Block>, t: nat)
    requires Canonical(p, owned) && t < p.tiers
    ensures p.chains[t] != [] ==> InTree(p.tiers, Block(t, p.chains[t][0]))
  {
    if p.chains[t] != [] {
      PopCanonical(p, owned, t);
    }
  }

  lemma SplitEntry(q: Pool, owned: set<Block>, x: Block)
    requires Canonical(q, owned + {x}) && x !in owned && x.tier + 1 < q.tiers
    ensures InTree(q.tiers, LeftChild(x)) && InTree(q.tiers, RightChild(x))
    ensures LeftChild(x) !in owned && RightChild(x) !in owned
    ensures Canonical(Split(q, x), owned + {LeftChild(x), RightChild(x)})
  {
    SplitCanonical(q, owned + {x}, x);
    ChildNotLive(q, owned, x);
    assert owned + {x} - {x} == owned;
  }

  lemma SkipIsWithout(c: seq<nat>, i: nat)
    requires NoDup(c) && i < |c|
    ensures Skip(c, i) == Without(c, c[i])
  {
    assert c == c[..i] + [c[i]] + c[i + 1..];
    WithoutSplit(c[..i], c[i], c[i + 1..]);
  }

  lemma KeptSubset(tiers: nat, m: seq<MemByte>, n: seq<MemByte>, s: set<Block>, r: set<Block>)
    requires Kept(tiers, m, n, s) && r <= s
    ensures Kept(tiers, m, n, r)
  {
  }

  lemma IdInTree(tiers: nat, t: nat, p: Ptr)
    requires t < tiers && BlockIdOf(tiers, t, p).Some?
    ensures InTree(tiers, Block(t, BlockIdOf(tiers, t, p).value))
  {
    var id := BlockIdOf(tiers, t, p).value;
    var g := Granules(tiers, t);
    Pow2Add(t, tiers - 1 - t);
    assert 16 * (Pow2(t) * g) == Pow2(t) * (16 * g);
    DivBelow(p.offset, 16 * g, Pow2(t));
  }

  // The first k bytes of y in n are those of x in m.
  ghost predicate SamePrefix(tiers: nat, m: seq<MemByte>, x: Block, n: seq<MemByte>, y: Block, k: nat)
    requires x.tier < tiers && y.tier < tiers
  {
    && Start(tiers, x) + k <= |m| && Start(tiers, y) + k <= |n|
    && n[Start(tiers, y)..Start(tiers, y) + k] == m[Start(tiers, x)..Start(tiers, x) + k]
  }

  // The first k bytes at q in n are those at p in m.
  ghost predicate Carried(m: seq<MemByte>, p: Ptr, n: seq<MemByte>, q: Ptr, k: nat) {
    && p.At? && q.At?
    && 0 <= p.offset && p.offset + k <= |m| && 0 <= q.offset && q.offset + k <= |n|
    && n[q.offset..q.offset + k] == m[p.offset..p.offset + k]
  }

  lemma MoveEntry(h: Heap, p: Ptr, x: Block, size: nat) returns (y: Block)
    requires Inv(h) && Locate(h.pool, p) == Some(x) && x in h.live && Alloc(h, size).1 != Null
    ensures var g := Alloc(h, size).0;
      && Inv(g) && x in g.live && y in g.live && y !in h.live && g.live == h.live + {y}
      && InTree(h.pool.tiers, x) && InTree(h.pool.tiers, y)
      && Alloc(h, size).1 == PtrTo(h.pool.tiers, y) && p == PtrTo(h.pool.tiers, x)
      && size <= BlockSize(h.pool.tiers, y.tier)
      && BlockSize(h.pool.tiers, x.tier) <= 0x8000_0000
      && DeallocTarget(g, p, BlockSize(h.pool.tiers, x.tier)) == Some(x)
      && Dealloc(g, p, BlockSize(h.pool.tiers, x.tier)).live == h.live + {y} - {x}
      && Move(h, p, x, size) == (Dealloc(g, p, BlockSize(h.pool.tiers, x.tier)), PtrTo(h.pool.tiers, y))
  {
    hide Inv, Alloc, TierOf, Capacity, BlockSize, DeallocTarget, Start, Dealloc, Move;
    LiveBlockFits(h, x);
    LocateIsDeallocTarget(h, p, size);
    LocateFromAddress(h.pool, p, h.pool.tiers - 1);
    MoveResult(h, p, x, size);
    AllocGrantsBlock(h, size);
    var (g, b) := Alloc(h, size);
    y :| y !in h.live && g.live == h.live + {y} && InTree(h.pool.tiers, y)
      && TierOf(h.pool.tiers, size) == Some(y.tier) && size <= BlockSize(h.pool.tiers, y.tier)
      && b == PtrTo(h.pool.tiers, y) && Locate(g.pool, b) == Some(y);
  }

  lemma LiveBlockFits(h: Heap, x: Block)
    requires Inv(h) && x in h.live
    ensures WellShaped(h.pool) && InTree(h.pool.tiers, x)
    ensures BlockSize(h.pool.tiers, x.tier) <= 0x8000_0000
    ensures 0 <= Start(h.pool.tiers, x)
    ensures Start(h.pool.tiers, x) + BlockSize(h.pool.tiers, x.tier) <= Capacity(h.pool.tiers)
  {
    PoolFitsU32(h.pool.tiers);
    BlockSizeMono(h.pool.tiers, 0, x.tier);
    InsidePool(h.pool.tiers, x);
    SlotInside(h.pool.tiers, x);
  }

  lemma MoveResult(h: Heap, p: Ptr, x: Block, size: nat)
    requires Inv(h) && Locate(h.pool, p) == Some(x) && x in h.live && Alloc(h, size).1 != Null
    ensures var (g, b) := Alloc(h, size);
      && Inv(g) && x in g.live && WellShaped(g.pool) && g.pool.tiers == h.pool.tiers
      && DeallocTarget(g, p, BlockSize(h.pool.tiers, x.tier)) == Some(x)
      && Dealloc(g, p, BlockSize(h.pool.tiers, x.tier)).live == g.live - {x}
      && Move(h, p, x, size) == (Dealloc(g, p, BlockSize(h.pool.tiers, x.tier)), b)
  {
    LocateIsDeallocTarget(h, p, size);
  }

  lemma MoveRefused(h: Heap, p: Ptr, x: Block, size: nat)
    requires Inv(h) && Locate(h.pool, p) == Some(x) && x in h.live && Alloc(h, size).1 == Null
    ensures Alloc(h, size) == (h, Null) && Move(h, p, x, size) == (h, Null)
  {
    AllocInv(h, size);
  }

  lemma CopyEntry(p: Pool, live: set<Block>, x: Block, y: Block)
    requires Canonical(p, live) && x in live && y in live && x != y
    ensures ChainsApart(p) && OffChains(p, y) && InTree(p.tiers, x) && InTree(p.tiers, y)
    ensures AllUnrelated(live - {y}, y) && (forall z :: z in live ==> InTree(p.tiers, z))
    ensures End(p.tiers, x) <= Capacity(p.tiers) && End(p.tiers, y) <= Capacity(p.tiers)
    ensures End(p.tiers, x) <= Start(p.tiers, y) || End(p.tiers, y) <= Start(p.tiers, x)
    ensures End(p.tiers, x) == Start(p.tiers, x) + BlockSize(p.tiers, x.tier)
    ensures End(p.tiers, y) == Start(p.tiers, y) + BlockSize(p.tiers, y.tier)
  {
    CanonicalApart(p, live);
    UnrelatedApart(p.tiers, x, y);
    InsidePool(p.tiers, x);
    InsidePool(p.tiers, y);
    SlotInside(p.tiers, x);
    SlotInside(p.tiers, y);
  }

  // What the caller of a move sees: bystanders keep their bytes, and the new block has the old one's.
  lemma MovedBytes(tiers: nat, m: seq<MemByte>, a: seq<MemByte>, c: seq<MemByte>, d: seq<MemByte>,
                   live: set<Block>, x: Block, y: Block, n: nat)
    requires InTree(tiers, x) && InTree(tiers, y) && x in live && y !in live
    requires n <= BlockSize(tiers, x.tier) && n <= BlockSize(tiers, y.tier)
    requires Kept(tiers, m, a, live) && Kept(tiers, a, c, live + {y} - {y}) && Kept(tiers, c, d, live + {y} - {x})
    requires SamePrefix(tiers, a, x, c, y, n)
    ensures Kept(tiers, m, d, live * (live + {y} - {x}))
    ensures Carried(m, PtrTo(tiers, x), d, PtrTo(tiers, y), n)
  {
    assert live + {y} - {y} == live;
    KeptTrans(tiers, m, a, c, live);
    var both := live * (live + {y} - {x});
    KeptSubset(tiers, m, c, live, both);
    KeptSubset(tiers, c, d, live + {y} - {x}, both);
    KeptTrans(tiers, m, c, d, both);
    assert SameBytes(tiers, m, a, x) && SameBytes(tiers, c, d, y);
    SlotInside(tiers, x);
    SlotInside(tiers, y);
    PrefixOfSlice(m, a, Start(tiers, x), End(tiers, x), n);
    PrefixOfSlice(c, d, Start(tiers, y), End(tiers, y), n);
  }

  lemma PrefixOfSlice(m: seq<MemByte>, n: seq<MemByte>, lo: nat, hi: nat, k: nat)
    requires lo + k <= hi <= |m| && |m| == |n| && m[lo..hi] == n[lo..hi]
    ensures m[lo..lo + k] == n[lo..lo + k]
  {
    assert m[lo..lo + k] == m[lo..hi][..k];
    assert n[lo..lo + k] == n[lo..hi][..k];
  }
}
