/** Small vocabulary shared by every component. */
module Prelude {

  datatype Option<+T> = None | Some(value: T)

  /** An unsigned 32-bit quantity; assigning a larger value is a verification error, so no wrap goes unnoticed. */
  type u32 = x: int | 0 <= x < 0x1_0000_0000

  function Pow2(n: nat): (p: nat)
    ensures p >= 1
  {
    if n == 0 then 1 else 2 * Pow2(n - 1)
  }

  lemma {:induction false} Pow2Add(m: nat, n: nat)
    ensures Pow2(m + n) == Pow2(m) * Pow2(n)
  {
    if m > 0 {
      Pow2Add(m - 1, n);
      assert Pow2(m + n) == 2 * (Pow2(m - 1) * Pow2(n));
    }
  }

  lemma {:induction false} Pow2Mono(m: nat, n: nat)
    requires m <= n
    ensures Pow2(m) <= Pow2(n)
    decreases n - m
  {
    if m < n {
      Pow2Mono(m, n - 1);
    }
  }

  lemma {:induction false} MulMono(m: nat, n: nat, k: nat)
    requires m <= n
    ensures m * k <= n * k
    decreases n - m
  {
    if m < n {
      MulMono(m, n - 1, k);
      assert n * k == (n - 1) * k + k;
    }
  }

  lemma DivUnique(a: nat, s: nat, q: nat)
    requires s > 0 && q * s <= a < q * s + s
    ensures a / s == q
  {
    var d := a / s;
    assert a == s * d + a % s;
    assert s * d == d * s;
    assert (d + 1) * s == d * s + s;
    assert (q + 1) * s == q * s + s;
    if d < q {
      MulMono(d + 1, q, s);
    }
  }

  lemma DivBelow(a: nat, s: nat, n: nat)
    requires s > 0 && a < n * s
    ensures a / s < n
  {
    var d := a / s;
    assert a == s * d + a % s;
    assert s * d == d * s;
    if n <= d {
      MulMono(n, d, s);
    }
  }
}
