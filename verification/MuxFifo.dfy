/** The locked queue behind the completion list and the ready list, one operation per critical section. */
module MuxFifo {
  import opened Prelude

  // The list without the first occurrence of x.
  function Erased<T(==)>(s: seq<T>, x: T): seq<T> {
    if s == [] then []
    else if s[0] == x then s[1..]
    else [s[0]] + Erased(s[1..], x)
  }

  lemma {:induction false} ErasedOnce<T>(s: seq<T>, x: T)
    ensures x !in s ==> Erased(s, x) == s
    ensures x in s ==> multiset(Erased(s, x)) == multiset(s) - multiset{x}
  {
    if s != [] {
      assert s == [s[0]] + s[1..];
      ErasedOnce(s[1..], x);
    }
  }

  lemma {:induction false} ErasedAt<T>(s: seq<T>, i: nat)
    requires i < |s| && s[i] !in s[..i]
    ensures Erased(s, s[i]) == s[..i] + s[i + 1..]
  {
    if i > 0 {
      assert s[1..][..i - 1] == s[1..i];
      assert s[0] in s[..i];
      assert forall k :: 1 <= k < i ==> s[k] in s[..i];
      ErasedAt(s[1..], i - 1);
      assert s[..i] + s[i + 1..] == [s[0]] + (s[1..][..i - 1] + s[1..][i..]);
    }
  }

  class NetIoMuxSyncFifo<T(==)> {
    var list: seq<T>

    constructor ()
      ensures list == []
    {
      list := [];
    }

    // The popped element and how many remain; an empty list reports zero.
    method PopFront() returns (r: Option<T>, count: nat)
      modifies this
      ensures old(list) == [] ==> r == None && count == 0 && list == []
      ensures old(list) != [] ==> r.Some? && [r.value] + list == old(list) && count == |list|
    {
      if list == [] {
        return None, 0;
      }
      r := Some(list[0]);
      list := list[1..];
      count := |list|;
    }

    // A null pointer is ignored.
    method PushBack(data: Option<T>)
      modifies this
      ensures list == if data.Some? then old(list) + [data.value] else old(list)
    {
      if data.Some? {
        list := list + [data.value];
      }
    }

    method Erase(data: Option<T>) returns (found: bool)
      modifies this
      ensures found <==> data.Some? && data.value in old(list)
      ensures list == if data.Some? then Erased(old(list), data.value) else old(list)
    {
      if data.None? || list == [] {
        return false;
      }
      var i := 0;
      while i < |list|
        invariant 0 <= i <= |list|
        invariant data.value !in list[..i]
        invariant list == old(list)
      {
        if list[i] == data.value {
          ErasedAt(list, i);
          list := list[..i] + list[i + 1..];
          return true;
        }
        i := i + 1;
      }
      ErasedOnce(list, data.value);
      return false;
    }
  }
}
