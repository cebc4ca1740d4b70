/**
 Doubly linked lists stored in raw bytes. A byte holds client data or a fragment of a stored pointer,
 so writing a free-chain record really overwrites sixteen bytes of the memory around it.
 */
module BuddyRecords {
  import opened Prelude
  import opened BuddyHeap

  datatype MemByte = Raw(v: bv8) | Fragment(p: Ptr, k: nat)

  function PtrBytes(p: Ptr): (r: seq<MemByte>)
    ensures |r| == 8
  {
    [Fragment(p, 0), Fragment(p, 1), Fragment(p, 2), Fragment(p, 3),
     Fragment(p, 4), Fragment(p, 5), Fragment(p, 6), Fragment(p, 7)]
  }

  // A field write through a pointer.
  function Store(m: seq<MemByte>, a: nat, p: Ptr): (r: seq<MemByte>)
    requires a + 8 <= |m|
    ensures |r| == |m|
    ensures r[a..a + 8] == PtrBytes(p)
    ensures forall i :: 0 <= i < |m| && !(a <= i < a + 8) ==> r[i] == m[i]
  {
    m[..a] + PtrBytes(p) + m[a + 8..]
  }

  lemma StoreAt(m: seq<MemByte>, a: nat, p: Ptr)
    requires a + 8 <= |m|
    ensures |Store(m, a, p)| == |m|
    ensures forall k :: 0 <= k < |m| ==> Store(m, a, p)[k] == if a <= k < a + 8 then Fragment(p, k - a) else m[k]
  {
  }

  // A range of bytes that a store does not touch.
  lemma StoreAway(m: seq<MemByte>, a: nat, p: Ptr, lo: nat, hi: nat)
    requires a + 8 <= |m| && lo <= hi <= |m| && (hi <= a || a + 8 <= lo)
    ensures Store(m, a, p)[lo..hi] == m[lo..hi]
  {
  }

  // A FreeBlockRecord at s: Prev in the first eight bytes, Next in the last eight.
  ghost predicate HoldsRecord(m: seq<MemByte>, s: nat, prev: Ptr, next: Ptr) {
    s + 16 <= |m| && m[s..s + 8] == PtrBytes(prev) && m[s + 8..s + 16] == PtrBytes(next)
  }

  predicate Apart16(s: nat, t: nat) {
    s + 16 <= t || t + 16 <= s
  }

  // A write inside the slot at w leaves the record in another slot alone.
  lemma StoreElsewhere(m: seq<MemByte>, a: nat, p: Ptr, w: nat, s: nat, prev: Ptr, next: Ptr)
    requires a + 8 <= |m| && w <= a <= w + 8 && Apart16(w, s)
    requires HoldsRecord(m, s, prev, next)
    ensures HoldsRecord(Store(m, a, p), s, prev, next)
  {
    StoreAway(m, a, p, s, s + 8);
    StoreAway(m, a, p, s + 8, s + 16);
  }

  lemma StorePrev(m: seq<MemByte>, s: nat, prev: Ptr, next: Ptr, p: Ptr)
    requires HoldsRecord(m, s, prev, next)
    ensures HoldsRecord(Store(m, s, p), s, p, next)
  {
    StoreAway(m, s, p, s + 8, s + 16);
  }

  lemma StoreNext(m: seq<MemByte>, s: nat, prev: Ptr, next: Ptr, p: Ptr)
    requires HoldsRecord(m, s, prev, next)
    ensures HoldsRecord(Store(m, s + 8, p), s, prev, p)
  {
    StoreAway(m, s + 8, p, s, s + 8);
  }

  // ----- A list of records, given by their addresses in order -----

  // The i-th record, NULL beyond either end.
  function Link(rs: seq<nat>, i: int): Ptr {
    if 0 <= i < |rs| then At(rs[i]) else Null
  }

  ghost predicate RecordOk(m: seq<MemByte>, rs: seq<nat>, i: nat)
    requires i < |rs|
  {
    HoldsRecord(m, rs[i], Link(rs, i - 1), Link(rs, i + 1))
  }

  ghost predicate Linked(m: seq<MemByte>, rs: seq<nat>) {
    forall i :: 0 <= i < |rs| ==> RecordOk(m, rs, i)
  }

  ghost predicate PairwiseApart(rs: seq<nat>) {
    forall i, j :: 0 <= i < |rs| && 0 <= j < |rs| && i != j ==> Apart16(rs[i], rs[j])
  }

  ghost predicate ApartFrom(rs: seq<nat>, w: nat) {
    forall i :: 0 <= i < |rs| ==> Apart16(w, rs[i])
  }

  lemma LinkedKept(m: seq<MemByte>, rs: seq<nat>, a: nat, p: Ptr, w: nat)
    requires Linked(m, rs) && ApartFrom(rs, w) && w <= a <= w + 8 && a + 8 <= |m|
    ensures Linked(Store(m, a, p), rs)
  {
    forall i | 0 <= i < |rs| ensures RecordOk(Store(m, a, p), rs, i) {
      assert RecordOk(m, rs, i);
      StoreElsewhere(m, a, p, w, rs[i], Link(rs, i - 1), Link(rs, i + 1));
    }
  }

  // ----- Push -----

  predicate InMemory(m: seq<MemByte>, p: Ptr) {
    p.At? ==> 0 <= p.offset && p.offset + 16 <= |m|
  }

  lemma LinkInMemory(m: seq<MemByte>, rs: seq<nat>, i: int)
    requires Linked(m, rs)
    ensures InMemory(m, Link(rs, i))
  {
    if 0 <= i < |rs| {
      assert RecordOk(m, rs, i);
    }
  }

  // if (p) p->Prev = v
  function SetPrev(m: seq<MemByte>, p: Ptr, v: Ptr): (r: seq<MemByte>)
    requires InMemory(m, p)
    ensures |r| == |m|
  {
    if p.At? then Store(m, p.offset, v) else m
  }

  // if (p) p->Next = v
  function SetNext(m: seq<MemByte>, p: Ptr, v: Ptr): (r: seq<MemByte>)
    requires InMemory(m, p)
    ensures |r| == |m|
  {
    if p.At? then Store(m, p.offset + 8, v) else m
  }

  // The three stores that push the record at s in front of head.
  function PushMem(m: seq<MemByte>, head: Ptr, s: nat): (r: seq<MemByte>)
    requires s + 16 <= |m| && InMemory(m, head)
    ensures |r| == |m|
  {
    Store(Store(SetPrev(m, head, At(s)), s + 8, head), s, Null)
  }

  lemma PushLinked(m: seq<MemByte>, rs: seq<nat>, s: nat)
    requires Linked(m, rs) && PairwiseApart(rs) && ApartFrom(rs, s) && s + 16 <= |m|
    ensures InMemory(m, Link(rs, 0))
    ensures Linked(PushMem(m, Link(rs, 0), s), [s] + rs)
  {
    var head := Link(rs, 0);
    LinkInMemory(m, rs, 0);
    var m1 := SetPrev(m, head, At(s));
    var m2 := Store(m1, s + 8, head);
    var bs := [s] + rs;
    forall i | 0 <= i < |bs|
      ensures RecordOk(Store(m2, s, Null), bs, i)
    {
      if i == 0 {
        StoreAway(m2, s, Null, s + 8, s + 16);
      } else {
        PushedRecord(m, rs, s, i - 1);
        StoreElsewhere(m1, s + 8, head, s, rs[i - 1], Link(bs, i - 1), Link(bs, i + 1));
        StoreElsewhere(m2, s, Null, s, rs[i - 1], Link(bs, i - 1), Link(bs, i + 1));
      }
    }
  }

  // After the first store every old record has the neighbours it is to have in the longer list.
  lemma PushedRecord(m: seq<MemByte>, rs: seq<nat>, s: nat, i: nat)
    requires Linked(m, rs) && PairwiseApart(rs) && i < |rs|
    ensures rs[0] + 16 <= |m|
    ensures HoldsRecord(Store(m, rs[0], At(s)), rs[i], Link([s] + rs, i), Link([s] + rs, i + 2))
  {
    assert RecordOk(m, rs, 0);
    assert RecordOk(m, rs, i);
    assert Link(rs, i + 1) == Link([s] + rs, i + 2);
    if i == 0 {
      StorePrev(m, rs[0], Link(rs, 0 - 1), Link(rs, 1), At(s));
    } else {
      assert Apart16(rs[0], rs[i]);
      StoreElsewhere(m, rs[0], At(s), rs[0], rs[i], Link(rs, i - 1), Link(rs, i + 1));
    }
  }

  // ----- Unlink (and pop, which unlinks the first) -----

  function UnlinkMem(m: seq<MemByte>, prev: Ptr, next: Ptr): (r: seq<MemByte>)
    requires InMemory(m, prev) && InMemory(m, next)
    ensures |r| == |m|
  {
    SetPrev(SetNext(m, prev, next), next, prev)
  }

  function Skip(rs: seq<nat>, i: nat): seq<nat>
    requires i < |rs|
  {
    rs[..i] + rs[i + 1..]
  }

  // The neighbours of the record at k once the i-th is skipped.
  function PrevSkipping(rs: seq<nat>, i: nat, k: nat): Ptr {
    if k == i + 1 then Link(rs, i - 1) else Link(rs, k - 1)
  }

  function NextSkipping(rs: seq<nat>, i: nat, k: nat): Ptr {
    if k + 1 == i then Link(rs, i + 1) else Link(rs, k + 1)
  }

  lemma UnlinkLinked(m: seq<MemByte>, rs: seq<nat>, i: nat)
    requires Linked(m, rs) && PairwiseApart(rs) && i < |rs|
    ensures InMemory(m, Link(rs, i - 1)) && InMemory(m, Link(rs, i + 1))
    ensures Linked(UnlinkMem(m, Link(rs, i - 1), Link(rs, i + 1)), Skip(rs, i))
  {
    var prev, next := Link(rs, i - 1), Link(rs, i + 1);
    var bs := Skip(rs, i);
    LinkInMemory(m, rs, i - 1);
    LinkInMemory(m, rs, i + 1);
    forall j | 0 <= j < |bs|
      ensures RecordOk(UnlinkMem(m, prev, next), bs, j)
    {
      var k := if j < i then j else j + 1;
      SkipLinks(rs, i, k);
      UnlinkNext(m, rs, i, k);
      UnlinkPrev(SetNext(m, prev, next), rs, i, k);
    }
  }

  lemma SkipLinks(rs: seq<nat>, i: nat, k: nat)
    requires i < |rs| && k < |rs| && k != i
    ensures var j := if k < i then k else k - 1;
      && Skip(rs, i)[j] == rs[k]
      && Link(Skip(rs, i), j - 1) == PrevSkipping(rs, i, k)
      && Link(Skip(rs, i), j + 1) == NextSkipping(rs, i, k)
  {
  }

  lemma UnlinkNext(m: seq<MemByte>, rs: seq<nat>, i: nat, k: nat)
    requires Linked(m, rs) && PairwiseApart(rs) && i < |rs| && k < |rs| && k != i
    requires InMemory(m, Link(rs, i - 1))
    ensures HoldsRecord(SetNext(m, Link(rs, i - 1), Link(rs, i + 1)),
                        rs[k], Link(rs, k - 1), NextSkipping(rs, i, k))
  {
    var a, next := rs[k], Link(rs, i + 1);
    var kp, kn := Link(rs, k - 1), Link(rs, k + 1);
    assert RecordOk(m, rs, k);
    if k + 1 == i {
      StoreNext(m, a, kp, kn, next);
    } else if i > 0 {
      var w := rs[i - 1];
      assert Apart16(w, a);
      StoreElsewhere(m, w + 8, next, w, a, kp, kn);
    }
  }

  lemma UnlinkPrev(m: seq<MemByte>, rs: seq<nat>, i: nat, k: nat)
    requires PairwiseApart(rs) && i < |rs| && k < |rs| && k != i
    requires InMemory(m, Link(rs, i + 1))
    requires HoldsRecord(m, rs[k], Link(rs, k - 1), NextSkipping(rs, i, k))
    ensures HoldsRecord(SetPrev(m, Link(rs, i + 1), Link(rs, i - 1)),
                        rs[k], PrevSkipping(rs, i, k), NextSkipping(rs, i, k))
  {
    var a, prev := rs[k], Link(rs, i - 1);
    var kp, kn := Link(rs, k - 1), NextSkipping(rs, i, k);
    if k == i + 1 {
      StorePrev(m, a, kp, kn, prev);
    } else if i + 1 < |rs| {
      var w := rs[i + 1];
      assert Apart16(w, a);
      StoreElsewhere(m, w, prev, w, a, kp, kn);
    }
  }
}
