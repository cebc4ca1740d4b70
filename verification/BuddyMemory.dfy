/**
 The free chains of a pool laid out in its bytes: the record of a free block is in the block's last
 sixteen bytes, the same place as the record of its right child would be. What keeps them apart is that
 the blocks on the chains are never related by ancestry.
 */
module BuddyMemory {
  import opened Prelude
  import opened BuddyGeometry
  import opened BuddyPool
  import opened BuddyHeap
  import opened BuddyRecords

  // ----- Separation of blocks -----

  ghost predicate OffChains(p: Pool, x: Block) {
    forall y :: OnChain(p, y) ==> Unrelated(x, y)
  }

  // Every block on a chain is in the tree and unrelated to every other one.
  ghost predicate ChainsApart(p: Pool) {
    && (forall t :: 0 <= t < |p.chains| ==> NoDup(p.chains[t]))
    && (forall x :: OnChain(p, x) ==> InTree(p.tiers, x))
    && (forall x, y :: OnChain(p, x) && OnChain(p, y) && x != y ==> Unrelated(x, y))
  }

  // Blocks that share no byte with any free block.
  ghost predicate Bystanders(p: Pool, s: set<Block>) {
    forall y :: y in s ==> InTree(p.tiers, y) && OffChains(p, y)
  }

  lemma CanonicalApart(p: Pool, live: set<Block>)
    requires Canonical(p, live)
    ensures ChainsApart(p)
    ensures forall x :: x in live ==> OffChains(p, x)
    ensures forall x, y :: x in live && y in live && x != y ==> Unrelated(x, y)
  {
    forall x, y | OnChain(p, x) && OnChain(p, y) && x != y ensures Unrelated(x, y) {
      FreeTopsUnrelated(p, live, x, y);
      FreeTopsUnrelated(p, live, y, x);
    }
    forall x, y | x in live && OnChain(p, y) ensures Unrelated(x, y) {
      FreeTopOffLive(p, live, y, x);
    }
  }

  lemma SlotsApart(tiers: nat, x: Block, y: Block)
    requires x.tier < tiers && y.tier < tiers && Unrelated(x, y)
    ensures Apart16(Slot(tiers, x), Slot(tiers, y))
  {
    UnrelatedApart(tiers, x, y);
    SlotInside(tiers, x);
    SlotInside(tiers, y);
  }

  lemma SlotInPool(tiers: nat, x: Block)
    requires InTree(tiers, x)
    ensures Slot(tiers, x) + 16 <= Capacity(tiers)
  {
    InsidePool(tiers, x);
    SlotInside(tiers, x);
  }

  // ----- Chains in memory -----

  // The record addresses of a chain.
  function Slots(tiers: nat, t: nat, c: seq<nat>): (rs: seq<nat>)
    requires t < tiers
    ensures |rs| == |c|
    ensures forall i :: 0 <= i < |c| ==> rs[i] == Slot(tiers, Block(t, c[i]))
  {
    seq(|c|, i requires 0 <= i < |c| => Slot(tiers, Block(t, c[i])))
  }

  ghost predicate ChainOk(m: seq<MemByte>, tiers: nat, t: nat, head: Ptr, c: seq<nat>)
    requires t < tiers
  {
    head == Link(Slots(tiers, t, c), 0) && Linked(m, Slots(tiers, t, c))
  }

  ghost predicate RecordsOk(m: seq<MemByte>, p: Pool, heads: seq<Ptr>) {
    && WellShaped(p)
    && |m| == Capacity(p.tiers)
    && |heads| == p.tiers
    && forall t :: 0 <= t < p.tiers ==> ChainOk(m, p.tiers, t, heads[t], p.chains[t])
  }

  lemma ChainSlotsApart(p: Pool, t: nat)
    requires WellShaped(p) && ChainsApart(p) && t < p.tiers
    ensures PairwiseApart(Slots(p.tiers, t, p.chains[t]))
  {
    var c := p.chains[t];
    var rs := Slots(p.tiers, t, c);
    assert NoDup(c);
    forall i, j | 0 <= i < |rs| && 0 <= j < |rs| && i != j ensures Apart16(rs[i], rs[j]) {
      assert OnChain(p, Block(t, c[i])) && OnChain(p, Block(t, c[j]));
      SlotsApart(p.tiers, Block(t, c[i]), Block(t, c[j]));
    }
  }

  // w is not on chain t, and either not on any chain or on another one.
  lemma SlotApartFromChain(p: Pool, t: nat, w: Block)
    requires WellShaped(p) && ChainsApart(p) && t < p.tiers && w.tier < p.tiers
    requires OffChains(p, w) || (OnChain(p, w) && w.tier != t)
    ensures ApartFrom(Slots(p.tiers, t, p.chains[t]), Slot(p.tiers, w))
  {
    var c := p.chains[t];
    forall i | 0 <= i < |c| ensures Apart16(Slot(p.tiers, w), Slots(p.tiers, t, c)[i]) {
      assert OnChain(p, Block(t, c[i]));
      SlotsApart(p.tiers, w, Block(t, c[i]));
    }
  }

  // A write inside the slot of w keeps the chains of all tiers but w's.
  lemma OtherChainsKept(m: seq<MemByte>, a: nat, v: Ptr, w: Block, p: Pool, heads: seq<Ptr>)
    requires WellShaped(p) && ChainsApart(p) && w.tier < p.tiers && |heads| == p.tiers && a + 8 <= |m|
    requires Slot(p.tiers, w) <= a <= Slot(p.tiers, w) + 8
    requires OnChain(p, w) || OffChains(p, w)
    requires forall t :: 0 <= t < p.tiers && t != w.tier ==> ChainOk(m, p.tiers, t, heads[t], p.chains[t])
    ensures forall t :: 0 <= t < p.tiers && t != w.tier ==> ChainOk(Store(m, a, v), p.tiers, t, heads[t], p.chains[t])
  {
    forall t | 0 <= t < p.tiers && t != w.tier
      ensures ChainOk(Store(m, a, v), p.tiers, t, heads[t], p.chains[t])
    {
      assert ChainOk(m, p.tiers, t, heads[t], p.chains[t]);
      SlotApartFromChain(p, t, w);
      LinkedKept(m, Slots(p.tiers, t, p.chains[t]), a, v, Slot(p.tiers, w));
    }
  }

  // ----- Push and unlink keep the layout -----

  lemma HeadInMemory(m: seq<MemByte>, p: Pool, heads: seq<Ptr>, t: nat)
    requires RecordsOk(m, p, heads) && t < p.tiers
    ensures InMemory(m, heads[t])
    ensures heads[t] == Link(Slots(p.tiers, t, p.chains[t]), 0)
  {
    assert ChainOk(m, p.tiers, t, heads[t], p.chains[t]);
    LinkInMemory(m, Slots(p.tiers, t, p.chains[t]), 0);
  }

  ghost function Pushed(p: Pool, x: Block): Pool
    requires x.tier < |p.chains|
  {
    p.(chains := p.chains[x.tier := [x.id] + p.chains[x.tier]])
  }

  lemma PushRecords(m: seq<MemByte>, p: Pool, heads: seq<Ptr>, x: Block)
    requires RecordsOk(m, p, heads) && ChainsApart(p) && InTree(p.tiers, x) && OffChains(p, x)
    ensures Slot(p.tiers, x) + 16 <= |m| && InMemory(m, heads[x.tier])
    ensures RecordsOk(PushMem(m, heads[x.tier], Slot(p.tiers, x)), Pushed(p, x), heads[x.tier := At(Slot(p.tiers, x))])
  {
    var tiers, t, c := p.tiers, x.tier, p.chains[x.tier];
    var s, head := Slot(tiers, x), heads[x.tier];
    SlotInPool(tiers, x);
    HeadInMemory(m, p, heads, t);
    PushOtherChains(m, p, heads, x);
    ChainSlotsApart(p, t);
    SlotApartFromChain(p, t, x);
    assert ChainOk(m, tiers, t, head, c);
    PushLinked(m, Slots(tiers, t, c), s);
    assert Slots(tiers, t, [x.id] + c) == [s] + Slots(tiers, t, c);
  }

  lemma PushOtherChains(m: seq<MemByte>, p: Pool, heads: seq<Ptr>, x: Block)
    requires RecordsOk(m, p, heads) && ChainsApart(p) && InTree(p.tiers, x) && OffChains(p, x)
    requires Slot(p.tiers, x) + 16 <= |m| && InMemory(m, heads[x.tier])
    ensures forall t :: 0 <= t < p.tiers && t != x.tier ==>
      ChainOk(PushMem(m, heads[x.tier], Slot(p.tiers, x)), p.tiers, t, heads[t], p.chains[t])
  {
    var s, head, c := Slot(p.tiers, x), heads[x.tier], p.chains[x.tier];
    HeadInMemory(m, p, heads, x.tier);
    if head.At? {
      assert OnChain(p, Block(x.tier, c[0]));
      OtherChainsKept(m, head.offset, At(s), Block(x.tier, c[0]), p, heads);
    }
    var m1 := SetPrev(m, head, At(s));
    OtherChainsKept(m1, s + 8, head, x, p, heads);
    OtherChainsKept(Store(m1, s + 8, head), s, Null, x, p, heads);
  }

  ghost function Unlinked(p: Pool, t: nat, i: nat): Pool
    requires t < |p.chains| && i < |p.chains[t]|
  {
    p.(chains := p.chains[t := Skip(p.chains[t], i)])
  }

  lemma UnlinkRecords(m: seq<MemByte>, p: Pool, heads: seq<Ptr>, t: nat, i: nat)
    requires RecordsOk(m, p, heads) && ChainsApart(p) && t < p.tiers && i < |p.chains[t]|
    ensures var rs := Slots(p.tiers, t, p.chains[t]);
      && InMemory(m, Link(rs, i - 1)) && InMemory(m, Link(rs, i + 1))
      && RecordsOk(UnlinkMem(m, Link(rs, i - 1), Link(rs, i + 1)), Unlinked(p, t, i),
                   heads[t := if i == 0 then Link(rs, 1) else heads[t]])
  {
    var tiers, c := p.tiers, p.chains[t];
    var rs := Slots(tiers, t, c);
    ChainSlotsApart(p, t);
    assert ChainOk(m, tiers, t, heads[t], c);
    UnlinkLinked(m, rs, i);
    UnlinkOtherChains(m, p, heads, t, i);
    assert Slots(tiers, t, Skip(c, i)) == Skip(rs, i);
  }

  lemma UnlinkOtherChains(m: seq<MemByte>, p: Pool, heads: seq<Ptr>, t: nat, i: nat)
    requires RecordsOk(m, p, heads) && ChainsApart(p) && t < p.tiers && i < |p.chains[t]|
    requires var rs := Slots(p.tiers, t, p.chains[t]);
      InMemory(m, Link(rs, i - 1)) && InMemory(m, Link(rs, i + 1))
    ensures var rs := Slots(p.tiers, t, p.chains[t]);
      forall u :: 0 <= u < p.tiers && u != t ==>
        ChainOk(UnlinkMem(m, Link(rs, i - 1), Link(rs, i + 1)), p.tiers, u, heads[u], p.chains[u])
  {
    var c := p.chains[t];
    var rs := Slots(p.tiers, t, c);
    var prev, next := Link(rs, i - 1), Link(rs, i + 1);
    if prev.At? {
      assert OnChain(p, Block(t, c[i - 1]));
      OtherChainsKept(m, prev.offset + 8, next, Block(t, c[i - 1]), p, heads);
    }
    if next.At? {
      assert OnChain(p, Block(t, c[i + 1]));
      OtherChainsKept(SetNext(m, prev, next), next.offset, prev, Block(t, c[i + 1]), p, heads);
    }
  }

  // ----- Client bytes -----

  // The contents of every block of s are the same in both memories.
  ghost predicate Kept(tiers: nat, m: seq<MemByte>, n: seq<MemByte>, s: set<Block>) {
    && |n| == |m|
    && forall x :: x in s ==> x.tier < tiers && SameBytes(tiers, m, n, x)
  }

  ghost predicate SameBytes(tiers: nat, m: seq<MemByte>, n: seq<MemByte>, x: Block)
    requires x.tier < tiers
  {
    && Start(tiers, x) <= End(tiers, x) <= |m| && |m| == |n|
    && n[Start(tiers, x)..End(tiers, x)] == m[Start(tiers, x)..End(tiers, x)]
  }

  lemma KeptTrans(tiers: nat, m: seq<MemByte>, n: seq<MemByte>, o: seq<MemByte>, s: set<Block>)
    requires Kept(tiers, m, n, s) && Kept(tiers, n, o, s)
    ensures Kept(tiers, m, o, s)
  {
    forall x | x in s ensures x.tier < tiers && SameBytes(tiers, m, o, x) {
      assert SameBytes(tiers, m, n, x) && SameBytes(tiers, n, o, x);
    }
  }

  lemma KeptRefl(tiers: nat, m: seq<MemByte>, s: set<Block>)
    requires tiers > 0 && |m| == Capacity(tiers) && forall x :: x in s ==> InTree(tiers, x)
    ensures Kept(tiers, m, m, s)
  {
    forall x | x in s ensures x.tier < tiers && SameBytes(tiers, m, m, x) {
      InsidePool(tiers, x);
    }
  }

  // A write inside the slot of w leaves every block unrelated to w alone.
  lemma StoreKeeps(tiers: nat, m: seq<MemByte>, a: nat, v: Ptr, w: Block, s: set<Block>)
    requires tiers > 0 && |m| == Capacity(tiers) && w.tier < tiers && a + 8 <= |m|
    requires Slot(tiers, w) <= a <= Slot(tiers, w) + 8
    requires forall x :: x in s ==> InTree(tiers, x) && Unrelated(x, w)
    ensures Kept(tiers, m, Store(m, a, v), s)
  {
    SlotInside(tiers, w);
    forall x | x in s ensures x.tier < tiers && SameBytes(tiers, m, Store(m, a, v), x) {
      InsidePool(tiers, x);
      UnrelatedApart(tiers, x, w);
      StoreAway(m, a, v, Start(tiers, x), End(tiers, x));
    }
  }

  // One more such write.
  lemma StoreKeepsToo(tiers: nat, o: seq<MemByte>, m: seq<MemByte>, a: nat, v: Ptr, w: Block, s: set<Block>)
    requires tiers > 0 && |m| == Capacity(tiers) && w.tier < tiers && a + 8 <= |m|
    requires Slot(tiers, w) <= a <= Slot(tiers, w) + 8
    requires forall x :: x in s ==> InTree(tiers, x) && Unrelated(x, w)
    requires Kept(tiers, o, m, s)
    ensures Kept(tiers, o, Store(m, a, v), s)
  {
    StoreKeeps(tiers, m, a, v, w, s);
    KeptTrans(tiers, o, m, Store(m, a, v), s);
  }

  // The back link written into the block at the head of the chain.
  lemma PushHeadKeeps(m: seq<MemByte>, p: Pool, heads: seq<Ptr>, x: Block, s: set<Block>)
    requires RecordsOk(m, p, heads) && ChainsApart(p) && InTree(p.tiers, x)
    requires Bystanders(p, s) && Slot(p.tiers, x) + 16 <= |m| && InMemory(m, heads[x.tier])
    ensures Kept(p.tiers, m, SetPrev(m, heads[x.tier], At(Slot(p.tiers, x))), s)
  {
    hide Kept, Store;
    var tiers, t := p.tiers, x.tier;
    var head := heads[t];
    KeptRefl(tiers, m, s);
    if head.At? {
      HeadInMemory(m, p, heads, t);
      var y := Block(t, p.chains[t][0]);
      assert OnChain(p, y);
      StoreKeeps(tiers, m, head.offset, At(Slot(tiers, x)), y, s);
    }
  }

  lemma PushKeeps(m: seq<MemByte>, p: Pool, heads: seq<Ptr>, x: Block, s: set<Block>)
    requires RecordsOk(m, p, heads) && ChainsApart(p) && InTree(p.tiers, x)
    requires Bystanders(p, s) && AllUnrelated(s, x)
    requires Slot(p.tiers, x) + 16 <= |m| && InMemory(m, heads[x.tier])
    ensures Kept(p.tiers, m, PushMem(m, heads[x.tier], Slot(p.tiers, x)), s)
  {
    hide Slot, Kept, Store, SetPrev, Unrelated, ChainsApart, ChainOk, Pow2;
    var tiers := p.tiers;
    var sl, head := Slot(tiers, x), heads[x.tier];
    PushHeadKeeps(m, p, heads, x, s);
    var m1 := SetPrev(m, head, At(sl));
    StoreKeepsToo(tiers, m, m1, sl + 8, head, x, s);
    StoreKeepsToo(tiers, m, Store(m1, sl + 8, head), sl, Null, x, s);
  }

  lemma UnlinkKeeps(m: seq<MemByte>, p: Pool, t: nat, i: nat, s: set<Block>)
    requires WellShaped(p) && |m| == Capacity(p.tiers) && ChainsApart(p) && t < p.tiers && i < |p.chains[t]|
    requires Bystanders(p, s)
    requires var rs := Slots(p.tiers, t, p.chains[t]);
      InMemory(m, Link(rs, i - 1)) && InMemory(m, Link(rs, i + 1))
    ensures var rs := Slots(p.tiers, t, p.chains[t]);
      Kept(p.tiers, m, UnlinkMem(m, Link(rs, i - 1), Link(rs, i + 1)), s)
  {
    var tiers, c := p.tiers, p.chains[t];
    var rs := Slots(tiers, t, c);
    var prev, next := Link(rs, i - 1), Link(rs, i + 1);
    KeptRefl(tiers, m, s);
    hide Slot, Kept, Store, Unrelated, InTree;
    var m1 := SetNext(m, prev, next);
    assert Kept(tiers, m, m1, s) by {
      if prev.At? {
        assert OnChain(p, Block(t, c[i - 1]));
        StoreKeepsToo(tiers, m, m, prev.offset + 8, next, Block(t, c[i - 1]), s);
      }
    }
    if next.At? {
      assert OnChain(p, Block(t, c[i + 1]));
      StoreKeepsToo(tiers, m, m1, next.offset, prev, Block(t, c[i + 1]), s);
    }
  }

  // ----- Client writes -----

  ghost predicate ChangedOnlyIn(tiers: nat, m: seq<MemByte>, n: seq<MemByte>, y: Block)
    requires y.tier < tiers
  {
    |n| == |m| && forall i :: 0 <= i < |m| && !HasByte(tiers, y, i) ==> n[i] == m[i]
  }

  lemma OutsideWriteKeepsRecords(m: seq<MemByte>, n: seq<MemByte>, p: Pool, heads: seq<Ptr>, y: Block)
    requires RecordsOk(m, p, heads) && ChainsApart(p) && OffChains(p, y) && InTree(p.tiers, y)
    requires ChangedOnlyIn(p.tiers, m, n, y)
    ensures RecordsOk(n, p, heads)
  {
    forall t | 0 <= t < p.tiers ensures ChainOk(n, p.tiers, t, heads[t], p.chains[t]) {
      var c := p.chains[t];
      var rs := Slots(p.tiers, t, c);
      assert ChainOk(m, p.tiers, t, heads[t], c);
      forall i | 0 <= i < |rs| ensures RecordOk(n, rs, i) {
        var z := Block(t, c[i]);
        assert OnChain(p, z);
        assert RecordOk(m, rs, i);
        UnrelatedApart(p.tiers, y, z);
        SlotInside(p.tiers, z);
        SameRecord(m, n, rs[i], Link(rs, i - 1), Link(rs, i + 1));
      }
    }
  }

  lemma SameRecord(m: seq<MemByte>, n: seq<MemByte>, s: nat, prev: Ptr, next: Ptr)
    requires HoldsRecord(m, s, prev, next) && |n| == |m|
    requires forall i :: s <= i < s + 16 ==> n[i] == m[i]
    ensures HoldsRecord(n, s, prev, next)
  {
    assert n[s..s + 8] == m[s..s + 8];
    assert n[s + 8..s + 16] == m[s + 8..s + 16];
  }

  lemma OutsideWriteKeeps(tiers: nat, m: seq<MemByte>, n: seq<MemByte>, y: Block, s: set<Block>)
    requires tiers > 0 && |m| == Capacity(tiers) && InTree(tiers, y) && ChangedOnlyIn(tiers, m, n, y)
    requires AllUnrelated(s, y) && forall x :: x in s ==> InTree(tiers, x)
    ensures Kept(tiers, m, n, s)
  {
    forall x | x in s ensures x.tier < tiers && SameBytes(tiers, m, n, x) {
      InsidePool(tiers, x);
      assert Unrelated(x, y);
      UnrelatedApart(tiers, x, y);
    }
  }

  lemma EmptyRecords(m: seq<MemByte>, p: Pool, heads: seq<Ptr>)
    requires WellShaped(p) && |m| == Capacity(p.tiers) && |heads| == p.tiers
    requires forall t :: 0 <= t < p.tiers ==> p.chains[t] == [] && heads[t] == Null
    ensures RecordsOk(m, p, heads)
  {
  }
}
