/** The packed in-use bitmap: one bit per block, at the block's index in heap order. */
module BuddyFlags {
  import opened Prelude
  import opened BuddyGeometry

  // 1 << (idx & 0x7)
  function Mask(k: nat): bv8
    requires k < 8
  {
    if k == 0 then 1 else if k == 1 then 2 else if k == 2 then 4 else if k == 3 then 8
    else if k == 4 then 16 else if k == 5 then 32 else if k == 6 then 64 else 128
  }

  // (1 << tier) + blockId
  function FlagIndex(x: Block): nat {
    Pow2(x.tier) + x.id
  }

  // About one bit for every sixteen bytes of the pool.
  function FlagsLen(tiers: nat): nat
    requires tiers > 0
  {
    Pow2(if tiers <= 3 then 0 else tiers - 3)
  }

  predicate Bit(b: bv8, k: nat)
    requires k < 8
  {
    b & Mask(k) != 0
  }

  function WithBit(b: bv8, k: nat, val: bool): bv8
    requires k < 8
  {
    if val then b | Mask(k) else b & (Mask(k) ^ 0xFF)
  }

  predicate FlagBit(f: seq<bv8>, i: nat)
    requires i / 8 < |f|
  {
    Bit(f[i / 8], i % 8)
  }

  function WithFlag(f: seq<bv8>, i: nat, val: bool): seq<bv8>
    requires i / 8 < |f|
  {
    f[i / 8 := WithBit(f[i / 8], i % 8, val)]
  }

  // ----- The packing is faithful -----

  // The index stays inside the FlagsLen bytes, for every number of tiers.
  lemma FlagIndexInside(tiers: nat, x: Block)
    requires tiers > 0 && InTree(tiers, x)
    ensures FlagIndex(x) / 8 < FlagsLen(tiers)
  {
    Pow2Mono(x.tier + 1, tiers);
    assert FlagIndex(x) < Pow2(tiers);
    if tiers <= 3 {
      Pow2Mono(tiers, 3);
      assert Pow2(3) == 8;
    } else {
      Pow2Add(3, tiers - 3);
      assert Pow2(3) == 8;
    }
  }

  lemma FlagIndexInjective(tiers: nat, x: Block, y: Block)
    requires InTree(tiers, x) && InTree(tiers, y) && FlagIndex(x) == FlagIndex(y)
    ensures x == y
  {
    if x.tier < y.tier {
      Pow2Mono(x.tier + 1, y.tier);
    } else if y.tier < x.tier {
      Pow2Mono(y.tier + 1, x.tier);
    }
  }

  lemma WithBitIsLocal(b: bv8, k: nat, val: bool, j: nat)
    requires k < 8 && j < 8
    ensures Bit(WithBit(b, k, val), j) == if j == k then val else Bit(b, j)
  {
  }

  lemma SameIndex(i: nat, j: nat)
    ensures i == j <==> i / 8 == j / 8 && i % 8 == j % 8
  {
  }

  // Writing one flag changes that flag and no other.
  lemma WithFlagIsLocal(f: seq<bv8>, i: nat, val: bool, j: nat)
    requires i / 8 < |f| && j / 8 < |f|
    ensures |WithFlag(f, i, val)| == |f|
    ensures FlagBit(WithFlag(f, i, val), j) == if j == i then val else FlagBit(f, j)
  {
    SameIndex(i, j);
    WithBitIsLocal(f[i / 8], i % 8, val, j % 8);
  }

  // The bytes f represent the set of in-use blocks.
  ghost predicate FlagsOk(tiers: nat, f: seq<bv8>, bits: set<Block>)
    requires tiers > 0
  {
    && |f| == FlagsLen(tiers)
    && forall x :: InTree(tiers, x) ==> FlagAgrees(tiers, f, bits, x)
  }

  ghost predicate FlagAgrees(tiers: nat, f: seq<bv8>, bits: set<Block>, x: Block)
    requires tiers > 0 && InTree(tiers, x) && |f| == FlagsLen(tiers)
  {
    FlagIndexInside(tiers, x);
    FlagBit(f, FlagIndex(x)) <==> x in bits
  }

  lemma FlagsOkUpdate(tiers: nat, f: seq<bv8>, bits: set<Block>, x: Block, val: bool)
    requires tiers > 0 && FlagsOk(tiers, f, bits) && InTree(tiers, x)
    ensures FlagIndex(x) / 8 < |f|
    ensures FlagsOk(tiers, WithFlag(f, FlagIndex(x), val), if val then bits + {x} else bits - {x})
  {
    FlagIndexInside(tiers, x);
    var g := WithFlag(f, FlagIndex(x), val);
    var bits' := if val then bits + {x} else bits - {x};
    forall y | InTree(tiers, y) ensures FlagAgrees(tiers, g, bits', y) {
      FlagIndexInside(tiers, y);
      WithFlagIsLocal(f, FlagIndex(x), val, FlagIndex(y));
      assert FlagAgrees(tiers, f, bits, y);
      if FlagIndex(x) == FlagIndex(y) {
        FlagIndexInjective(tiers, x, y);
      }
    }
  }

  lemma ZeroFlags(tiers: nat, f: seq<bv8>)
    requires tiers > 0 && |f| == FlagsLen(tiers)
    requires forall i :: 0 <= i < |f| ==> f[i] == 0
    ensures FlagsOk(tiers, f, {})
  {
    forall x | InTree(tiers, x) ensures FlagAgrees(tiers, f, {}, x) {
      FlagIndexInside(tiers, x);
      assert f[FlagIndex(x) / 8] == 0;
    }
  }
}
