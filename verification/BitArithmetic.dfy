/** Bit operations on unbounded naturals, as the codec's shifts, ors and masks use them. */
module BitArithmetic {

  function Pow2(n: nat): (r: nat)
    ensures r > 0
  {
    if n == 0 then 1 else 2 * Pow2(n - 1)
  }

  function BitOr(a: nat, b: nat): nat {
    if a == 0 && b == 0 then 0
    else (if a % 2 == 1 || b % 2 == 1 then 1 else 0) + 2 * BitOr(a / 2, b / 2)
  }

  function BitAnd(a: nat, b: nat): nat {
    if a == 0 || b == 0 then 0
    else (if a % 2 == 1 && b % 2 == 1 then 1 else 0) + 2 * BitAnd(a / 2, b / 2)
  }

  /** A left shift in a register of `width` bits. */
  function ShiftLeft(a: nat, places: nat, width: nat): nat {
    (a * Pow2(places)) % Pow2(width)
  }

  function ShiftRight(a: nat, places: nat): nat {
    QuotientNatural(a, Pow2(places));
    a / Pow2(places)
  }

  lemma {:induction false} DivisionUnique(a: int, d: int, q: int, r: int)
    requires d > 0 && a == q * d + r && 0 <= r < d
    ensures a / d == q && a % d == r
  {
    var q', r' := a / d, a % d;
    assert a == q' * d + r' && 0 <= r' < d;
    if q' < q {
      MulMonotone(q' + 1, q, d);
    } else if q < q' {
      MulMonotone(q + 1, q', d);
    }
  }

  lemma {:induction false} QuotientNatural(a: nat, d: nat)
    requires d > 0
    ensures 0 <= a / d <= a && 0 <= a % d < d && a == d * (a / d) + a % d
  {
    var q, r := a / d, a % d;
    assert a == q * d + r && 0 <= r < d;
    if q < 0 {
      MulMonotone(q, -1, d);
    } else {
      MulMonotone(1, d, q);
    }
  }

  lemma {:induction false} MulMonotone(x: int, y: int, d: int)
    requires x <= y && d >= 0
    ensures x * d <= y * d
  {
  }

  lemma {:induction false} Pow2Add(a: nat, b: nat)
    ensures Pow2(a + b) == Pow2(a) * Pow2(b)
  {
    if a > 0 {
      Pow2Add(a - 1, b);
      assert Pow2(a + b) == 2 * Pow2(a - 1 + b);
    }
  }

  lemma {:induction false} Pow2Monotone(a: nat, b: nat)
    requires a <= b
    ensures Pow2(a) <= Pow2(b)
    ensures a < b ==> Pow2(a) < Pow2(b)
  {
    if a < b {
      Pow2Monotone(a, b - 1);
    }
  }

  lemma {:induction false} OrZero(b: nat)
    ensures BitOr(0, b) == b
  {
    if b > 0 {
      OrZero(b / 2);
    }
  }

  /** Or-ing in bits above all those already set adds them. */
  lemma {:induction false} OrAbove(a: nat, b: nat, k: nat)
    requires a < Pow2(k)
    ensures BitOr(a, b * Pow2(k)) == a + b * Pow2(k)
  {
    if k == 0 {
      OrZero(b);
    } else {
      var half := b * Pow2(k - 1);
      assert b * Pow2(k) == 2 * half;
      OrAbove(a / 2, b, k - 1);
    }
  }

  /** Masking with the low `k` bits is the remainder. */
  lemma {:induction false} AndMask(a: nat, k: nat)
    ensures BitAnd(a, Pow2(k) - 1) == a % Pow2(k)
  {
    if k > 0 {
      var p := Pow2(k - 1);
      AndMask(a / 2, k - 1);
      assert (Pow2(k) - 1) / 2 == p - 1 && (Pow2(k) - 1) % 2 == 1;
      ModDoubled(a, p);
    }
  }

  lemma {:induction false} ModDoubled(a: nat, p: nat)
    requires p > 0
    ensures a % (2 * p) == a % 2 + 2 * ((a / 2) % p)
  {
    var q, r := (a / 2) / p, (a / 2) % p;
    QuotientNatural(a / 2, p);
    assert 0 <= r < p && a / 2 == p * q + r;
    assert a == q * (2 * p) + (2 * r + a % 2);
    DivisionUnique(a, 2 * p, q, 2 * r + a % 2);
  }
}
