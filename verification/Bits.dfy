/** Bitwise operations on n-bit naturals, and what they are on aligned numbers. */
module Bits {

  function Pow2(n: nat): (p: nat)
    ensures p > 0
  {
    if n == 0 then 1 else 2 * Pow2(n - 1)
  }

  function Bit(b: bool): nat { if b then 1 else 0 }

  function Or(a: nat, b: nat, n: nat): nat {
    if n == 0 then 0 else 2 * Or(a / 2, b / 2, n - 1) + Bit(a % 2 == 1 || b % 2 == 1)
  }

  function And(a: nat, b: nat, n: nat): nat {
    if n == 0 then 0 else 2 * And(a / 2, b / 2, n - 1) + Bit(a % 2 == 1 && b % 2 == 1)
  }

  lemma {:induction false} Pow2Add(m: nat, n: nat)
    ensures Pow2(m + n) == Pow2(m) * Pow2(n)
    decreases n
  {
    if n > 0 {
      Pow2Add(m, n - 1);
      assert Pow2(m + n) == 2 * Pow2(m + (n - 1));
      assert Pow2(m) * Pow2(n) == Pow2(m) * (2 * Pow2(n - 1)) == 2 * (Pow2(m) * Pow2(n - 1));
    }
  }

  lemma Apart(d: nat, q: nat, q1: nat)
    requires q < q1
    ensures d * q + d <= d * q1
  {
    assert d * (q + 1) == d * q + d;
    MulMono(d, q + 1, q1);
  }

  lemma QuotientUnique(d: nat, q: nat, r: nat, q1: nat, r1: nat)
    requires d * q + r == d * q1 + r1 && r < d && r1 < d
    ensures q == q1 && r == r1
  {
    if q < q1 {
      Apart(d, q, q1);
    } else if q1 < q {
      Apart(d, q1, q);
    }
  }

  lemma DivUnique(x: nat, d: nat, q: nat, r: nat)
    requires d > 0 && x == d * q + r && r < d
    ensures x / d == q && x % d == r
  {
    QuotientUnique(d, q, r, x / d, x % d);
  }

  lemma Regroup(a: nat, b: nat, q: nat, s: nat, r: nat)
    ensures a * (b * q + s) + r == (a * b) * q + (a * s + r)
  {
  }

  lemma DigitBound(a: nat, b: nat, s: nat, r: nat)
    requires s < b && r < a
    ensures a * s + r < a * b
  {
    assert a * (s + 1) == a * s + a;
    MulMono(a, s + 1, b);
  }

  lemma MulMono(a: nat, x: nat, y: nat)
    requires x <= y
    ensures a * x <= a * y
  {
  }

  lemma Division(x: nat, d: nat)
    requires d > 0
    ensures x == d * (x / d) + x % d && x % d < d
  {
  }

  lemma MultipleDivides(x: nat, d: nat, q: nat)
    requires d > 0 && x == d * q
    ensures x / d == q && x % d == 0
  {
    DivUnique(x, d, q, 0);
  }

  lemma RoundDown(x: nat, d: nat)
    requires d > 0
    ensures x % d <= x && (x - x % d) / d == x / d && (x - x % d) % d == 0
  {
    Division(x, d);
    MultipleDivides(x - x % d, d, x / d);
  }

  /** Two digits above a remainder are one digit of the larger base. */
  lemma TwoDigits(x: nat, a: nat, b: nat, q: nat, q2: nat, r2: nat, r: nat)
    requires x == a * q + r && q == b * q2 + r2 && r2 < b && r < a
    ensures x == (a * b) * q2 + (a * r2 + r) && a * r2 + r < a * b
  {
    Regroup(a, b, q2, r2, r);
    DigitBound(a, b, r2, r);
  }

  lemma DivDiv(x: nat, a: nat, b: nat)
    requires a > 0 && b > 0
    ensures a * b > 0 && x / (a * b) == (x / a) / b
  {
    Division(x, a);
    Division(x / a, b);
    TwoDigits(x, a, b, x / a, (x / a) / b, (x / a) % b, x % a);
    DivUnique(x, a * b, (x / a) / b, a * ((x / a) % b) + x % a);
  }

  /** Halving a number halves its multiple-of-2^k part. */
  lemma HalfAligned(a: nat, k: nat)
    requires k > 0
    ensures a % Pow2(k) == 2 * ((a / 2) % Pow2(k - 1)) + a % 2
    ensures a / Pow2(k) == (a / 2) / Pow2(k - 1)
  {
    var p := Pow2(k - 1);
    DivDiv(a, 2, p);
    var h := a / 2;
    assert h == p * (h / p) + h % p;
    assert a == 2 * h + a % 2;
    assert a == Pow2(k) * (h / p) + (2 * (h % p) + a % 2) by {
      assert 2 * (p * (h / p)) == Pow2(k) * (h / p);
    }
    DivUnique(a, Pow2(k), h / p, 2 * (h % p) + a % 2);
  }

  /** OR is addition when one operand is aligned and the other fits below. */
  lemma {:induction false} OrIsAdd(a: nat, b: nat, n: nat, k: nat)
    requires k <= n && a < Pow2(n) && b < Pow2(k) && a % Pow2(k) == 0
    ensures Or(a, b, n) == a + b
    decreases n
  {
    if n > 0 {
      if k == 0 {
        assert Or(a, 0, n) == 2 * Or(a / 2, 0, n - 1) + a % 2;
        OrIsAdd(a / 2, 0, n - 1, 0);
      } else {
        HalfAligned(a, k);
        OrIsAdd(a / 2, b / 2, n - 1, k - 1);
      }
    }
  }

  lemma HalfOfOnes(x: nat, p: nat)
    requires x < 2 * p
    ensures x / 2 < p && (2 * p - 1) / 2 == p - 1 && (2 * p - 1) % 2 == 1
  {
  }

  lemma {:induction false} AndAll(x: nat, n: nat)
    requires x < Pow2(n)
    ensures And(x, Pow2(n) - 1, n) == x
    decreases n
  {
    if n > 0 {
      HalfOfOnes(x, Pow2(n - 1));
      AndAll(x / 2, n - 1);
    }
  }

  lemma {:induction false} Pow2Mono(z: nat, n: nat)
    requires z <= n
    ensures Pow2(z) <= Pow2(n)
    decreases n
  {
    if z < n { Pow2Mono(z, n - 1); }
  }

  lemma AndEven(x: nat, y: nat, n: nat)
    ensures And(x, 2 * y, n + 1) == 2 * And(x / 2, y, n)
  {
    assert (2 * y) / 2 == y && (2 * y) % 2 == 0;
  }

  /** x with its k low bits cleared. */
  function Floor(x: nat, k: nat): nat {
    if k == 0 then x else 2 * Floor(x / 2, k - 1)
  }

  lemma {:induction false} FloorIs(x: nat, k: nat)
    ensures Floor(x, k) == x - x % Pow2(k)
    decreases k
  {
    if k > 0 {
      FloorIs(x / 2, k - 1);
      HalfAligned(x, k);
    }
  }

  lemma {:induction false} AndMaskFloors(x: nat, n: nat, z: nat)
    requires x < Pow2(n) && z <= n && Pow2(z) <= Pow2(n)
    ensures And(x, Pow2(n) - Pow2(z), n) == Floor(x, z)
    decreases n
  {
    if z == 0 {
      AndAll(x, n);
    } else {
      AndMaskFloors(x / 2, n - 1, z - 1);
      AndEven(x, Pow2(n - 1) - Pow2(z - 1), n - 1);
    }
  }

  /** A contiguous mask clears exactly the low bits. */
  lemma AndMask(x: nat, n: nat, z: nat)
    requires x < Pow2(n) && z <= n
    ensures Pow2(z) <= Pow2(n)
    ensures And(x, Pow2(n) - Pow2(z), n) == x - x % Pow2(z)
  {
    Pow2Mono(z, n);
    AndMaskFloors(x, n, z);
    FloorIs(x, z);
  }
}
