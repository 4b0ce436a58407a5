/** Power-of-two alignment arithmetic: the `align_up` every layout step is built on. */
module Alignment {

  predicate IsPow2(n: nat) {
    n == 1 || (n > 1 && n % 2 == 0 && IsPow2(n / 2))
  }

  /** 0 stands for "no alignment requested", as it does for `pack` and `aligned`. */
  predicate IsPow2OrZero(n: nat) {
    n == 0 || IsPow2(n)
  }

  function Max(a: nat, b: nat): nat {
    if a > b then a else b
  }

  /** The value of `align_up` at a power of two (see `MaskRoundsUp`), in arithmetic form.
      On a negative number it is what the unsigned wrap of the source computes. */
  function AlignUp(v: int, a: nat): (r: int)
    ensures v <= r
  {
    if a == 0 then v else
      assert v + a - 1 == a * ((v + a - 1) / a) + (v + a - 1) % a;
      (v + a - 1) / a * a
  }

  /** `AlignUp` yields the multiple of `a` in the `a`-wide gap above `v`. */
  lemma AlignUpRounds(v: int, a: nat)
    requires a != 0
    ensures AlignUp(v, a) < v + a && AlignUp(v, a) % a == 0
  {
    var q := (v + a - 1) / a;
    DivUnique(q * a, a, q, 0);
    assert v + a - 1 == a * q + (v + a - 1) % a;
  }

  lemma MulAtLeast(k: int, a: nat)
    requires k >= 1
    ensures k * a >= a
  {
    assert k * a == (k - 1) * a + a;
    assert (k - 1) * a >= 0;
  }

  lemma MultiplesApart(p: int, q: int, a: nat)
    requires p < q
    ensures p * a + a <= q * a
  {
    assert (q - p) * a == q * a - p * a;
    MulAtLeast(q - p, a);
  }

  lemma SameQuotient(a: nat, p: int, q: int, r: nat, s: nat)
    requires r < a && s < a && p * a + r == q * a + s
    ensures p == q && r == s
  {
    if p > q { MultiplesApart(q, p, a); }
    if q > p { MultiplesApart(p, q, a); }
  }

  lemma DivUnique(x: int, a: nat, q: int, r: nat)
    requires r < a && x == q * a + r
    ensures x / a == q && x % a == r
  {
    var q', r' := x / a, x % a;
    assert x == a * q' + r';
    assert a * q' == q' * a;
    SameQuotient(a, q, q', r, r');
  }

  /** A multiple of `a` strictly inside one `a`-wide gap above `v` is THE rounding of `v`. */
  lemma AlignUpUnique(v: int, a: nat, r: int)
    requires a != 0 && v <= r < v + a && r % a == 0
    ensures AlignUp(v, a) == r
  {
    var s := AlignUp(v, a);
    AlignUpRounds(v, a);
    var p, q := r / a, s / a;
    assert r == p * a && s == q * a;
    if p > q { MultiplesApart(q, p, a); }
    if q > p { MultiplesApart(p, q, a); }
  }

  lemma SumOfMultiples(x: int, y: int, a: nat)
    requires a != 0 && x % a == 0 && y % a == 0
    ensures (x + y) % a == 0
  {
    var p, q := x / a, y / a;
    assert x == p * a && y == q * a;
    assert x + y == (p + q) * a;
    DivUnique(x + y, a, p + q, 0);
  }

  lemma DividesTransitive(a: nat, b: nat, c: int)
    requires a != 0 && b != 0 && b % a == 0 && c % b == 0
    ensures c % a == 0
  {
    var p, q := b / a, c / b;
    assert b == p * a && c == q * b;
    assert c == (q * p) * a;
    DivUnique(c, a, q * p, 0);
  }

  lemma {:induction false} Pow2Divides(a: nat, b: nat)
    requires IsPow2(a) && IsPow2(b) && a <= b
    ensures b % a == 0
  {
    if a == 1 {
    } else {
      Pow2Divides(a / 2, b / 2);
      var q := (b / 2) / (a / 2);
      assert b / 2 == q * (a / 2);
      assert b == q * a;
      DivUnique(b, a, q, 0);
    }
  }

  /** `AlignUp` is the least multiple of `a` at or above `v`. */
  lemma AlignUpLeast(v: int, a: nat, r: int)
    requires a != 0 && v <= r && r % a == 0
    ensures AlignUp(v, a) <= r
  {
    var s := AlignUp(v, a);
    AlignUpRounds(v, a);
    var p, q := r / a, s / a;
    assert r == p * a && s == q * a;
    hide AlignUp;
    if q > p { MultiplesApart(p, q, a); }
  }

  lemma AlignUpTwice(v: int, a: nat, b: nat)
    requires a != 0 && b != 0 && b % a == 0
    ensures AlignUp(AlignUp(v, a), b) == AlignUp(v, b)
  {
    var r := AlignUp(v, b);
    AlignUpRounds(v, b);
    DividesTransitive(a, b, r);
    AlignUpLeast(v, a, r);
    AlignUpUnique(AlignUp(v, a), b, r);
  }

  lemma AlignUpShift(v: int, a: nat, s: int)
    requires a == 0 || s % a == 0
    ensures AlignUp(v + s, a) == AlignUp(v, a) + s
  {
    if a != 0 {
      AlignUpRounds(v, a);
      SumOfMultiples(AlignUp(v, a), s, a);
      AlignUpUnique(v + s, a, AlignUp(v, a) + s);
    }
  }

  lemma AlignUpFixed(v: int, a: nat)
    requires a == 0 || v % a == 0
    ensures AlignUp(v, a) == v
  {
    if a != 0 { AlignUpUnique(v, a, v); }
  }

  /** `x & ~(a - 1)` bit by bit, for a power of two: every bit below `a`'s own is cleared. */
  function ClearBitsBelow(x: nat, a: nat): nat
    requires IsPow2(a)
    decreases a
  {
    if a == 1 then x else 2 * ClearBitsBelow(x / 2, a / 2)
  }

  lemma {:induction false} ClearBitsBelowIsMultiple(x: nat, a: nat)
    requires IsPow2(a)
    ensures ClearBitsBelow(x, a) == x / a * a
    decreases a
  {
    if a != 1 {
      ClearBitsBelowIsMultiple(x / 2, a / 2);
      var h := a / 2;
      var q, r := x / 2 / h, x / 2 % h;
      assert x / 2 == q * h + r;
      assert q * a == 2 * (q * h);
      DivUnique(x, a, q, 2 * r + x % 2);
    }
  }

  /** The source rounds with a mask; at every power of two the mask is `AlignUp`. */
  lemma MaskRoundsUp(v: nat, a: nat)
    requires IsPow2(a)
    ensures ClearBitsBelow(v + a - 1, a) == AlignUp(v, a)
  {
    ClearBitsBelowIsMultiple(v + a - 1, a);
  }
}
