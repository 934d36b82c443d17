// Products and quotients, for the proofs of the other modules.
module Arithmetic {
  lemma QuotientUnique(q: nat, r: nat, d: nat)
    requires 0 < d && r < d
    ensures (q * d + r) / d == q && (q * d + r) % d == r
  {
    var n := q * d + r;
    assert n == (n / d) * d + n % d;
    if n / d < q {
      MulMonotone(n / d + 1, q, d);
    } else if q < n / d {
      MulMonotone(q + 1, n / d, d);
    }
  }

  lemma MulMonotone(a: nat, b: nat, s: nat)
    requires a <= b
    ensures a * s <= b * s
  {
  }

  lemma MulAssociates(a: nat, b: nat, c: nat)
    ensures a * (b * c) == (a * b) * c
  {
  }

  lemma Distribute(a: nat, b: nat, s: nat)
    ensures (a + b) * s == a * s + b * s
  {
  }

  // n / d by counting, which keeps the solver away from quotients by a variable.
  function Quot(n: nat, d: nat): nat
    requires d > 0
  {
    if n < d then 0 else 1 + Quot(n - d, d)
  }

  lemma {:induction false} QuotIs(n: nat, d: nat)
    requires d > 0
    ensures Quot(n, d) == n / d
  {
    if n < d {
      QuotientUnique(0, n, d);
    } else {
      QuotIs(n - d, d);
      var q := (n - d) / d;
      assert n - d == q * d + (n - d) % d;
      Distribute(q, 1, d);
      QuotientUnique(q + 1, (n - d) % d, d);
    }
  }

  lemma {:induction false} QuotMonotone(a: nat, b: nat, d: nat)
    requires d > 0 && a <= b
    ensures Quot(a, d) <= Quot(b, d)
  {
    if d <= a {
      QuotMonotone(a - d, b - d, d);
    }
  }

  // The multiple of d at or below n.
  function RoundDown(n: nat, d: nat): nat
    requires d > 0
  {
    if n < d then 0 else d + RoundDown(n - d, d)
  }

  lemma {:induction false} RoundDownIs(n: nat, d: nat)
    requires d > 0
    ensures RoundDown(n, d) == n / d * d == Quot(n, d) * d
    ensures RoundDown(n, d) <= n < RoundDown(n, d) + d
  {
    QuotIs(n, d);
    if n < d {
      QuotientUnique(0, n, d);
    } else {
      RoundDownIs(n - d, d);
      QuotIs(n - d, d);
      Distribute(Quot(n - d, d), 1, d);
    }
  }

  predicate Multiple(n: nat, d: nat)
    requires d > 0
  {
    RoundDown(n, d) == n
  }

  lemma MultipleIs(n: nat, d: nat)
    requires d > 0
    ensures Multiple(n, d) <==> n % d == 0
    ensures Multiple(n, d) ==> n == Quot(n, d) * d
  {
    RoundDownIs(n, d);
    assert n == n / d * d + n % d;
  }

  lemma MultipleOf(k: nat, d: nat)
    requires d > 0
    ensures Multiple(k * d, d) && Quot(k * d, d) == k
  {
    QuotientUnique(k, 0, d);
    MultipleIs(k * d, d);
    QuotIs(k * d, d);
  }

  // a modulo m, again by counting.
  function Wrap(a: int, m: nat): (r: nat)
    requires m > 0
    ensures r < m
    decreases if a < 0 then m - a else a
  {
    if a < 0 then Wrap(a + m, m) else if a < m then a else Wrap(a - m, m)
  }

  lemma {:induction false} WrapUp(a: int, m: nat)
    requires m > 0
    ensures Wrap(a + m, m) == Wrap(a, m)
  {
  }

  lemma {:induction false} WrapAdd(a: int, b: int, m: nat)
    requires m > 0
    ensures Wrap(a + Wrap(b, m), m) == Wrap(a + b, m)
    decreases if b < 0 then m - b else b
  {
    if b < 0 {
      WrapAdd(a, b + m, m);
      WrapUp(a + b, m);
    } else if b >= m {
      WrapAdd(a, b - m, m);
      WrapUp(a + b - m, m);
    }
  }

  lemma {:induction false} WrapIs(a: nat, m: nat)
    requires m > 0
    ensures Wrap(a, m) == a % m
  {
    if a < m {
      QuotientUnique(0, a, m);
    } else {
      WrapIs(a - m, m);
      var q := (a - m) / m;
      assert a - m == q * m + (a - m) % m;
      Distribute(q, 1, m);
      QuotientUnique(q + 1, (a - m) % m, m);
    }
  }

  // Offset r into the block of d that starts at a multiple of d.
  lemma {:induction false} InBlock(base: nat, r: nat, d: nat)
    requires 0 < d && r < d && Multiple(base, d)
    ensures Quot(base + r, d) == Quot(base, d) && Wrap(base + r, d) == r && RoundDown(base + r, d) == base
    decreases base
  {
    if d <= base {
      InBlock(base - d, r, d);
    }
  }

  lemma {:induction false} RoundWrap(n: nat, d: nat)
    requires d > 0
    ensures RoundDown(n, d) + Wrap(n, d) == n
    ensures Multiple(RoundDown(n, d), d) && Quot(RoundDown(n, d), d) == Quot(n, d)
    ensures Multiple(n, d) <==> Wrap(n, d) == 0
  {
    if d <= n {
      RoundWrap(n - d, d);
    }
  }

  lemma {:induction false} QuotLess(a: nat, b: nat, d: nat)
    requires 0 < d && Multiple(b, d) && a < b
    ensures Quot(a, d) < Quot(b, d)
  {
    if d <= a {
      QuotLess(a - d, b - d, d);
    }
  }

  lemma {:induction false} MultipleAdd(a: nat, b: nat, d: nat)
    requires 0 < d && Multiple(a, d) && Multiple(b, d)
    ensures Multiple(a + b, d) && Quot(a + b, d) == Quot(a, d) + Quot(b, d)
    decreases a
  {
    if d <= a {
      MultipleAdd(a - d, b, d);
    }
  }

  lemma {:induction false} MultipleBelow(x: nat, n: nat, d: nat)
    requires 0 < d && Multiple(x, d) && x <= n
    ensures x <= RoundDown(n, d)
  {
    if d <= x {
      MultipleBelow(x - d, n - d, d);
    }
  }

  lemma {:induction false} RoundDownAdd(base: nat, n: nat, d: nat)
    requires 0 < d && Multiple(base, d)
    ensures RoundDown(base + n, d) == base + RoundDown(n, d)
  {
    if d <= base {
      RoundDownAdd(base - d, n, d);
    }
  }

  // Between multiples, the quotient tells where a number lies.
  lemma {:induction false} QuotAtLeast(x: nat, base: nat, d: nat)
    requires 0 < d && Multiple(base, d)
    ensures Quot(base, d) <= Quot(x, d) <==> base <= x
    decreases base
  {
    if d <= base && d <= x {
      QuotAtLeast(x - d, base - d, d);
    }
  }
}
