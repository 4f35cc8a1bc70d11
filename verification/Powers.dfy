/** Powers of two, as used by the buddy allocator for block sizes and alignment. */
module Powers {

  function Pow2(n: nat): (p: nat)
    ensures p >= 1
  {
    if n == 0 then 1 else 2 * Pow2(n - 1)
  }

  lemma {:induction false} Pow2Monotone(m: nat, n: nat)
    requires m <= n
    ensures Pow2(m) <= Pow2(n)
    decreases n
  {
    if m < n {
      Pow2Monotone(m, n - 1);
    }
  }

  lemma MultipleModulo(q: nat, d: nat)
    requires d >= 1
    ensures (q * d) % d == 0
  {
    var x := q * d;
    var q', r := x / d, x % d;
    assert x == d * q' + r;
    RemainderIsZero(q, q', r, d);
  }

  lemma RemainderIsZero(q: int, q': int, r: int, d: int)
    requires 0 <= r < d && q * d == d * q' + r
    ensures r == 0
  {
    var k := q - q';
    assert k * d == r;
    if k >= 1 {
      assert k * d >= d by { Scale(1, k, d); }
    } else if k <= -1 {
      assert k * d <= -d by { Scale(k, -1, d); }
    }
  }

  lemma Scale(a: int, b: int, d: int)
    requires a <= b && d > 0
    ensures a * d <= b * d
  {
  }
}
