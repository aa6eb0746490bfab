/** Networks with any masks (machine/network/utils.go): when the test of two addresses is
    the same as having an address in common. */
module Masks {
  import opened Options
  import opened Bits
  import opened NetworkPool

  /** The two numbers have the same bits under the mask. */
  predicate Agree(a: nat, b: nat, m: nat, n: nat) { And(a, m, n) == And(b, m, n) }

  lemma AgreeStep(a: nat, b: nat, m: nat, n: nat)
    requires n > 0
    ensures Agree(a, b, m, n) <==> Agree(a / 2, b / 2, m / 2, n - 1) && (m % 2 == 1 ==> a % 2 == b % 2)
  {
  }

  lemma AndHalf(a: nat, b: nat, n: nat)
    requires n > 0
    ensures And(a, b, n) / 2 == And(a / 2, b / 2, n - 1)
    ensures And(a, b, n) % 2 == 1 <==> a % 2 == 1 && b % 2 == 1
  {
  }

  /** The bits of a under m, and those of b elsewhere. */
  function Blend(a: nat, b: nat, m: nat, n: nat): (x: nat)
    ensures x < Pow2(n)
  {
    if n == 0 then 0 else 2 * Blend(a / 2, b / 2, m / 2, n - 1) + (if m % 2 == 1 then a else b) % 2
  }

  lemma {:induction false} BlendAgrees(a: nat, b: nat, m1: nat, m2: nat, n: nat)
    ensures Agree(Blend(a, b, m1, n), a, m1, n)
    ensures Agree(a, b, And(m1, m2, n), n) ==> Agree(Blend(a, b, m1, n), b, m2, n)
    decreases n
  {
    if n > 0 {
      var x := Blend(a, b, m1, n);
      BlendAgrees(a / 2, b / 2, m1 / 2, m2 / 2, n - 1);
      AgreeStep(x, a, m1, n);
      AgreeStep(x, b, m2, n);
      AgreeStep(a, b, And(m1, m2, n), n);
      AndHalf(m1, m2, n);
    }
  }

  lemma {:induction false} AgreeMeets(x: nat, a: nat, b: nat, m1: nat, m2: nat, n: nat)
    requires Agree(x, a, m1, n) && Agree(x, b, m2, n)
    ensures Agree(a, b, And(m1, m2, n), n)
    decreases n
  {
    if n > 0 {
      AgreeStep(x, a, m1, n);
      AgreeStep(x, b, m2, n);
      AgreeStep(a, b, And(m1, m2, n), n);
      AndHalf(m1, m2, n);
      AgreeMeets(x / 2, a / 2, b / 2, m1 / 2, m2 / 2, n - 1);
    }
  }

  /** Some address is in both networks exactly when theirs agree where both masks look. */
  lemma OverlapIsAgreement(a: nat, m1: nat, b: nat, m2: nat, n: nat)
    ensures Common(a, m1, b, m2, n) <==> Agree(a, b, And(m1, m2, n), n)
  {
    BlendAgrees(a, b, m1, m2, n);
    if x: nat :| x < Pow2(n) && Agree(x, a, m1, n) && Agree(x, b, m2, n) {
      AgreeMeets(x, a, b, m1, m2, n);
    }
  }

  lemma {:induction false} AgreeOnLess(a: nat, b: nat, m1: nat, m2: nat, n: nat)
    requires Agree(a, b, m1, n)
    ensures Agree(a, b, And(m1, m2, n), n) && Agree(a, b, And(m2, m1, n), n)
    decreases n
  {
    if n > 0 {
      AgreeStep(a, b, m1, n);
      AgreeStep(a, b, And(m1, m2, n), n);
      AgreeStep(a, b, And(m2, m1, n), n);
      AndHalf(m1, m2, n);
      AndHalf(m2, m1, n);
      AgreeOnLess(a / 2, b / 2, m1 / 2, m2 / 2, n - 1);
    }
  }

  lemma {:induction false} AndComm(a: nat, b: nat, n: nat)
    ensures And(a, b, n) == And(b, a, n)
    decreases n
  {
    if n > 0 { AndComm(a / 2, b / 2, n - 1); }
  }

  /** The bits in which the masks differ. */
  function Differ(m1: nat, m2: nat, n: nat): (d: nat)
    ensures d < Pow2(n)
  {
    if n == 0 then 0 else 2 * Differ(m1 / 2, m2 / 2, n - 1) + Bit(m1 % 2 != m2 % 2)
  }

  lemma {:induction false} DifferUnseen(m1: nat, m2: nat, n: nat)
    ensures Agree(0, Differ(m1, m2, n), And(m1, m2, n), n)
    decreases n
  {
    if n > 0 {
      DifferUnseen(m1 / 2, m2 / 2, n - 1);
      AgreeStep(0, Differ(m1, m2, n), And(m1, m2, n), n);
      AndHalf(m1, m2, n);
    }
  }

  lemma WithinHalf(m1: nat, m2: nat, n: nat)
    requires n > 0
    ensures And(m1, m2, n) == m1 <==> And(m1 / 2, m2 / 2, n - 1) == m1 / 2 && (m1 % 2 == 1 ==> m2 % 2 == 1)
  {
  }

  lemma DifferHalf(m1: nat, m2: nat, n: nat)
    requires n > 0
    ensures Differ(m1, m2, n) / 2 == Differ(m1 / 2, m2 / 2, n - 1)
    ensures Differ(m1, m2, n) % 2 == 0 <==> m1 % 2 == m2 % 2
  {
  }

  lemma {:induction false} DifferComm(m1: nat, m2: nat, n: nat)
    ensures Differ(m1, m2, n) == Differ(m2, m1, n)
    decreases n
  {
    if n > 0 { DifferComm(m1 / 2, m2 / 2, n - 1); }
  }

  /** A mask sees it unless it lies within the other one. */
  lemma {:induction false} DifferIsSeen(m1: nat, m2: nat, n: nat)
    requires m1 < Pow2(n)
    ensures Agree(0, Differ(m1, m2, n), m1, n) <==> And(m1, m2, n) == m1
    decreases n
  {
    if n > 0 {
      DifferIsSeen(m1 / 2, m2 / 2, n - 1);
      WithinHalf(m1, m2, n);
      DifferHalf(m1, m2, n);
      AgreeStep(0, Differ(m1, m2, n), m1, n);
    }
  }

  // The test.

  predicate Meets(a: nat, m1: nat, b: nat, m2: nat, n: nat) { Agree(a, b, m1, n) || Agree(b, a, m2, n) }

  ghost predicate Common(a: nat, m1: nat, b: nat, m2: nat, n: nat) {
    exists x: nat :: x < Pow2(n) && Agree(x, a, m1, n) && Agree(x, b, m2, n)
  }

  /** Whether one mask lies within the other. */
  predicate Nested(m1: nat, m2: nat, n: nat) { And(m1, m2, n) == m1 || And(m1, m2, n) == m2 }

  lemma MeetsIsCommon(a: nat, m1: nat, b: nat, m2: nat, n: nat)
    requires Nested(m1, m2, n)
    ensures Meets(a, m1, b, m2, n) <==> Common(a, m1, b, m2, n)
  {
    OverlapIsAgreement(a, m1, b, m2, n);
    if Agree(a, b, m1, n) { AgreeOnLess(a, b, m1, m2, n); }
    if Agree(b, a, m2, n) { AgreeOnLess(a, b, m2, m1, n); }
  }

  lemma MissesOne(m1: nat, m2: nat, n: nat)
    requires m1 < Pow2(n) && m2 < Pow2(n) && !Nested(m1, m2, n)
    ensures !Meets(0, m1, Differ(m1, m2, n), m2, n) && Common(0, m1, Differ(m1, m2, n), m2, n)
  {
    DifferUnseen(m1, m2, n);
    DifferIsSeen(m1, m2, n);
    DifferIsSeen(m2, m1, n);
    DifferComm(m1, m2, n);
    AndComm(m1, m2, n);
    OverlapIsAgreement(0, m1, Differ(m1, m2, n), m2, n);
  }

  ghost predicate SharedAddress(p: Net, q: Net) {
    exists x: nat :: Addr(x) && Contains(p, Some(x)) && Contains(q, Some(x))
  }

  lemma TestIsMeets(a: nat, m1: nat, b: nat, m2: nat, n: nat)
    requires n == 32
    ensures NetworksIntersect(Net(Some(a), m1), Net(Some(b), m2)) <==> Meets(a, m1, b, m2, n)
    ensures SharedAddress(Net(Some(a), m1), Net(Some(b), m2)) <==> Common(a, m1, b, m2, n)
  {
    var p, q := Net(Some(a), m1), Net(Some(b), m2);
    if Common(a, m1, b, m2, n) {
      var x: nat :| x < Pow2(n) && Agree(x, a, m1, n) && Agree(x, b, m2, n);
      assert Addr(x) && Contains(p, Some(x)) && Contains(q, Some(x));
    }
    if SharedAddress(p, q) {
      var x: nat :| Addr(x) && Contains(p, Some(x)) && Contains(q, Some(x));
      assert x < Pow2(n) && Agree(x, a, m1, n) && Agree(x, b, m2, n);
    }
  }

  /** The test of the two addresses is exact for all networks with these masks. */
  ghost predicate ExactFor(m1: nat, m2: nat) {
    forall a: nat, b: nat | Addr(a) && Addr(b) ::
      NetworksIntersect(Net(Some(a), m1), Net(Some(b), m2)) <==> SharedAddress(Net(Some(a), m1), Net(Some(b), m2))
  }

  /** It is exact if and only if one mask lies within the other. */
  lemma ExactExactly(m1: nat, m2: nat, n: nat)
    requires n == 32 && m1 < Pow2(n) && m2 < Pow2(n)
    ensures ExactFor(m1, m2) <==> Nested(m1, m2, n)
  {
    if Nested(m1, m2, n) {
      forall a: nat, b: nat | Addr(a) && Addr(b)
        ensures NetworksIntersect(Net(Some(a), m1), Net(Some(b), m2)) <==>
                SharedAddress(Net(Some(a), m1), Net(Some(b), m2))
      {
        TestIsMeets(a, m1, b, m2, n);
        MeetsIsCommon(a, m1, b, m2, n);
      }
    } else {
      var d := Differ(m1, m2, n);
      TestIsMeets(0, m1, d, m2, n);
      MissesOne(m1, m2, n);
      assert Addr(0) && Addr(d);
    }
  }
}
