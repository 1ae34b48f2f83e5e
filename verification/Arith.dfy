/** The few non-linear facts the other modules need. */
module Arith {

  const UINT32: nat := 0x1_0000_0000
  const UINT64: nat := 0x1_0000_0000_0000_0000

  /** `n--` on an unsigned 64-bit counter. */
  function Dec64(n: nat): nat {
    if n == 0 then UINT64 - 1 else n - 1
  }

  lemma {:induction false} MulLe(a: nat, b: nat, q: nat)
    requires a <= b
    ensures a * q <= b * q
    decreases b
  {
    if a < b {
      MulLe(a, b - 1, q);
      assert b * q == (b - 1) * q + q;
    }
  }

  lemma {:induction false} MulLe2(a: nat, b: nat, c: nat)
    requires b <= c
    ensures a * b <= a * c
  {
    MulLe(b, c, a);
    assert a * b == b * a && a * c == c * a;
  }

  lemma {:induction false} DivBounds(n: nat, q: nat)
    requires 1 <= q
    ensures (n / q) * q <= n < (n / q) * q + q
  {
  }

  /** `b < n / q` exactly when `b + 1` whole steps of `q` fit into `n`. */
  lemma {:induction false} DivAbove(b: nat, q: nat, n: nat)
    requires 1 <= q
    ensures b < n / q <==> b * q + q <= n
  {
    DivBounds(n, q);
    if b < n / q {
      MulLe(b + 1, n / q, q);
      assert (b + 1) * q == b * q + q;
    } else {
      MulLe(n / q, b, q);
    }
  }

  lemma {:induction false} QuotientOf(b: nat, r: nat, q: nat)
    requires r < q
    ensures (b * q + r) / q == b
  {
    DivAbove(b, q, b * q + r);
    if b > 0 {
      DivAbove(b - 1, q, b * q + r);
      assert (b - 1) * q + q == b * q;
    }
  }

  lemma {:induction false} RemainderOf(b: nat, r: nat, q: nat)
    requires r < q
    ensures (b * q + r) % q == r
  {
    var n := b * q + r;
    QuotientOf(b, r, q);
    assert n == (n / q) * q + n % q;
  }
}
