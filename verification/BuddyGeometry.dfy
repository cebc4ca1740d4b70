/**
 The binary tree of blocks behind the buddy allocator, and where its blocks lie in the pool.
 Tier 0 is the whole pool; block (t, b) splits into (t+1, 2b) and (t+1, 2b+1).
 */
module BuddyGeometry {
  import opened Prelude

  datatype Block = Block(tier: nat, id: nat)

  ghost predicate InTree(tiers: nat, x: Block) {
    x.tier < tiers && x.id < Pow2(x.tier)
  }

  function Parent(x: Block): Block
    requires x.tier > 0
  {
    Block(x.tier - 1, x.id / 2)
  }

  function LeftChild(x: Block): Block {
    Block(x.tier + 1, 2 * x.id)
  }

  function RightChild(x: Block): Block {
    Block(x.tier + 1, 2 * x.id + 1)
  }

  // blockId ^ 0x1
  function BuddyId(id: nat): nat {
    if id % 2 == 0 then id + 1 else id - 1
  }

  function Buddy(x: Block): Block {
    Block(x.tier, BuddyId(x.id))
  }

  // The ancestor of x (or x itself) on tier t.
  function Ancestor(x: Block, t: nat): Block
    requires t <= x.tier
    decreases x.tier
  {
    if t == x.tier then x else Ancestor(Parent(x), t)
  }

  // x lies in the subtree rooted at a.
  predicate Under(x: Block, a: Block) {
    a.tier <= x.tier && Ancestor(x, a.tier) == a
  }

  // ----- The shape of the tree -----

  lemma {:induction false} AncestorTier(x: Block, t: nat)
    requires t <= x.tier
    ensures Ancestor(x, t).tier == t
    decreases x.tier
  {
    if t < x.tier {
      AncestorTier(Parent(x), t);
    }
  }

  lemma {:induction false} AncestorTwice(x: Block, s: nat, t: nat)
    requires t <= s <= x.tier
    ensures Ancestor(x, s).tier == s
    ensures Ancestor(Ancestor(x, s), t) == Ancestor(x, t)
    decreases x.tier
  {
    AncestorTier(x, s);
    if s < x.tier {
      AncestorTwice(Parent(x), s, t);
    }
  }

  lemma UnderTrans(x: Block, a: Block, b: Block)
    requires Under(x, a) && Under(a, b)
    ensures Under(x, b)
  {
    AncestorTwice(x, a.tier, b.tier);
  }

  // Neither block contains the other.
  predicate Unrelated(x: Block, y: Block) {
    !Under(x, y) && !Under(y, x)
  }

  ghost predicate AllUnrelated(s: set<Block>, x: Block) {
    forall y :: y in s ==> Unrelated(y, x)
  }

  // A proper descendant lies under exactly one of the two children.
  lemma UnderChild(x: Block, a: Block)
    requires Under(x, a) && x != a
    ensures x.tier > a.tier
    ensures Under(x, LeftChild(a)) || Under(x, RightChild(a))
    ensures !(Under(x, LeftChild(a)) && Under(x, RightChild(a)))
  {
    AncestorTwice(x, a.tier + 1, a.tier);
    var c := Ancestor(x, a.tier + 1);
    assert Parent(c) == a;
  }

  lemma ChildrenUnder(a: Block)
    ensures Under(LeftChild(a), a) && Under(RightChild(a), a)
    ensures Buddy(LeftChild(a)) == RightChild(a) && Buddy(RightChild(a)) == LeftChild(a)
    ensures Parent(LeftChild(a)) == a && Parent(RightChild(a)) == a
  {
    assert Parent(LeftChild(a)) == a;
    assert Parent(RightChild(a)) == a;
  }

  lemma BuddyFacts(x: Block)
    ensures Buddy(Buddy(x)) == x && Buddy(x) != x && Buddy(x).tier == x.tier
    ensures x.tier > 0 ==> Parent(Buddy(x)) == Parent(x)
    ensures x.tier > 0 ==> {x, Buddy(x)} == {LeftChild(Parent(x)), RightChild(Parent(x))}
  {
  }

  // The proper ancestors of a block are those of its buddy.
  lemma ProperAncestorOfBuddy(x: Block, a: Block)
    requires Under(x, a) && x != a
    ensures x.tier > a.tier && Under(Buddy(x), a)
  {
    UnderChild(x, a);
    BuddyFacts(x);
    assert Ancestor(x, a.tier) == Ancestor(Parent(x), a.tier);
    assert Ancestor(Buddy(x), a.tier) == Ancestor(Parent(Buddy(x)), a.tier);
  }

  lemma InTreeBuddy(tiers: nat, x: Block)
    requires InTree(tiers, x) && x.tier > 0
    ensures InTree(tiers, Buddy(x)) && InTree(tiers, Parent(x))
  {
    hide Pow2;
    assert Pow2(x.tier) == 2 * Pow2(x.tier - 1) by {
      Pow2Add(1, x.tier - 1);
      Pow2One();
    }
  }

  lemma Pow2One()
    ensures Pow2(1) == 2
  {
  }

  lemma {:induction false} InTreeAncestor(tiers: nat, x: Block, t: nat)
    requires InTree(tiers, x) && t <= x.tier
    ensures InTree(tiers, Ancestor(x, t))
    decreases x.tier
  {
    if t < x.tier {
      InTreeAncestor(tiers, Parent(x), t);
    }
  }

  lemma {:induction false} RootIsAncestor(tiers: nat, x: Block)
    requires InTree(tiers, x)
    ensures Under(x, Block(0, 0))
    decreases x.tier
  {
    if x.tier > 0 {
      RootIsAncestor(tiers, Parent(x));
    }
  }

  // ----- Byte addresses -----

  // Block size of a tier in 16-byte granules: the smallest tier has one.
  function Granules(tiers: nat, tier: nat): (n: nat)
    requires tier < tiers
    ensures n >= 1
  {
    Pow2(tiers - 1 - tier)
  }

  // blockSizeOf: 1 << (MINSIZE_POWOF2 + TierNum - tier - 1)
  function BlockSize(tiers: nat, tier: nat): (n: nat)
    requires tier < tiers
    ensures n >= 16 && n % 16 == 0
  {
    16 * Granules(tiers, tier)
  }

  function Capacity(tiers: nat): (n: nat)
    requires tiers > 0
    ensures n >= 16
  {
    BlockSize(tiers, 0)
  }

  function Start(tiers: nat, x: Block): nat
    requires x.tier < tiers
  {
    x.id * BlockSize(tiers, x.tier)
  }

  function End(tiers: nat, x: Block): nat
    requires x.tier < tiers
  {
    (x.id + 1) * BlockSize(tiers, x.tier)
  }

  // The record of a free block occupies its last sixteen bytes.
  function Slot(tiers: nat, x: Block): nat
    requires x.tier < tiers
  {
    SlotInside(tiers, x);
    End(tiers, x) - 16
  }

  predicate HasByte(tiers: nat, x: Block, a: int)
    requires x.tier < tiers
  {
    Start(tiers, x) <= a < End(tiers, x)
  }

  lemma SlotInside(tiers: nat, x: Block)
    requires x.tier < tiers
    ensures End(tiers, x) == Start(tiers, x) + BlockSize(tiers, x.tier)
    ensures End(tiers, x) % 16 == 0 && Start(tiers, x) % 16 == 0
    ensures Start(tiers, x) <= End(tiers, x) - 16
  {
    var g := Granules(tiers, x.tier);
    assert End(tiers, x) == x.id * (16 * g) + 16 * g;
    assert x.id * (16 * g) == 16 * (x.id * g);
  }

  lemma ChildBytes(tiers: nat, x: Block)
    requires x.tier + 1 < tiers
    ensures BlockSize(tiers, x.tier) == 2 * BlockSize(tiers, x.tier + 1)
    ensures Start(tiers, LeftChild(x)) == Start(tiers, x)
    ensures End(tiers, LeftChild(x)) == Start(tiers, RightChild(x))
    ensures End(tiers, RightChild(x)) == End(tiers, x)
  {
    var s := BlockSize(tiers, x.tier + 1);
    assert BlockSize(tiers, x.tier) == 2 * s;
    assert x.id * (2 * s) == (2 * x.id) * s;
    assert (x.id + 1) * (2 * s) == (2 * x.id + 2) * s;
  }

  lemma {:induction false} NestedBytes(tiers: nat, x: Block, a: Block)
    requires x.tier < tiers && Under(x, a)
    ensures Start(tiers, a) <= Start(tiers, x) && End(tiers, x) <= End(tiers, a)
    decreases x.tier
  {
    if x != a {
      UnderChild(x, a);
      var p := Parent(x);
      ChildBytes(tiers, p);
      SlotInside(tiers, LeftChild(p));
      SlotInside(tiers, RightChild(p));
      assert x == LeftChild(p) || x == RightChild(p);
      NestedBytes(tiers, p, a);
    }
  }

  lemma SameTierApart(tiers: nat, x: Block, y: Block)
    requires x.tier == y.tier < tiers && x.id < y.id
    ensures End(tiers, x) <= Start(tiers, y)
  {
    MulMono(x.id + 1, y.id, BlockSize(tiers, x.tier));
  }

  // Blocks that are not in an ancestor relation share no byte.
  lemma UnrelatedApart(tiers: nat, x: Block, y: Block)
    requires x.tier < tiers && y.tier < tiers
    requires !Under(x, y) && !Under(y, x)
    ensures End(tiers, x) <= Start(tiers, y) || End(tiers, y) <= Start(tiers, x)
  {
    if x.tier <= y.tier {
      UnrelatedApartOrdered(tiers, x, y);
    } else {
      UnrelatedApartOrdered(tiers, y, x);
    }
  }

  lemma UnrelatedApartOrdered(tiers: nat, x: Block, y: Block)
    requires x.tier <= y.tier < tiers && !Under(y, x)
    ensures End(tiers, x) <= Start(tiers, y) || End(tiers, y) <= Start(tiers, x)
  {
    var z := Ancestor(y, x.tier);
    AncestorTier(y, x.tier);
    NestedBytes(tiers, y, z);
    assert z.id != x.id;
    if x.id < z.id {
      SameTierApart(tiers, x, z);
    } else {
      SameTierApart(tiers, z, x);
    }
  }

  // A block of the tree lies inside the pool.
  lemma InsidePool(tiers: nat, x: Block)
    requires tiers > 0 && InTree(tiers, x)
    ensures 0 <= Start(tiers, x) < End(tiers, x) <= Capacity(tiers)
  {
    RootIsAncestor(tiers, x);
    NestedBytes(tiers, x, Block(0, 0));
    SlotInside(tiers, x);
    assert End(tiers, Block(0, 0)) == Capacity(tiers);
  }

  // The arithmetic by which alloc, obtain and blockIdOf recover a block id from an address.
  lemma IdFromAddress(tiers: nat, x: Block, a: nat)
    requires x.tier < tiers && HasByte(tiers, x, a)
    ensures a / BlockSize(tiers, x.tier) == x.id
  {
    var s := BlockSize(tiers, x.tier);
    SlotInside(tiers, x);
    DivUnique(a, s, x.id);
  }

  lemma AlignedStart(tiers: nat, x: Block)
    requires x.tier < tiers
    ensures Start(tiers, x) % BlockSize(tiers, x.tier) == 0
    ensures Start(tiers, x) / BlockSize(tiers, x.tier) == x.id
  {
    SlotInside(tiers, x);
    IdFromAddress(tiers, x, Start(tiers, x));
    var s := BlockSize(tiers, x.tier);
    var a := Start(tiers, x);
    assert a == (a / s) * s + a % s;
  }

  lemma {:induction false} BlockSizeMono(tiers: nat, s: nat, t: nat)
    requires s <= t < tiers
    ensures BlockSize(tiers, t) <= BlockSize(tiers, s)
    ensures s < t ==> 2 * BlockSize(tiers, t) <= BlockSize(tiers, s)
  {
    Pow2Mono(tiers - 1 - t, tiers - 1 - s);
    if s < t {
      Pow2Mono(tiers - 1 - t, tiers - 1 - s - 1);
    }
  }
}
