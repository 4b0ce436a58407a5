/** Truncation of integer constants carried in 128 bits. */
module IntegerCast {
  import opened Alignment
  import opened Common

  /** What a cast reads of its target type: a size in bytes and a signedness. */
  datatype IntType = IntType(size: nat, isUnsigned: bool)

  const TWO_8 := 0x100
  const TWO_16 := 0x1_0000
  const TWO_32 := 0x1_0000_0000
  const TWO_64 := 0x1_0000_0000_0000_0000
  const TWO_128 := TWO_64 * TWO_64

  function Modulus(size: nat): (m: nat)
    requires size in {1, 2, 4, 8}
    ensures m > 0 && m % 2 == 0
  {
    if size == 1 then TWO_8 else if size == 2 then TWO_16 else if size == 4 then TWO_32 else TWO_64
  }

  /** Conversion to an unsigned type reduces modulo its range; to a signed one, the upper half of
      the residues counts as negative. */
  function ToUnsigned(v: int, m: nat): nat
    requires m > 0
  {
    v % m
  }

  function ToSigned(v: int, m: nat): int
    requires m > 0
  {
    if v % m < m / 2 then v % m else v % m - m
  }

  function Convert(v: int, m: nat, unsigned: bool): int
    requires m > 0
  {
    if unsigned then ToUnsigned(v, m) else ToSigned(v, m)
  }

  /** The signed 128-bit carrier. */
  function Carried(v: int): int {
    ToSigned(v, TWO_128)
  }

  /** No type, or one of 16 bytes (or any other size), leaves the carrier as it is. */
  function ApplyIntegerCast(cast: Option<IntType>, val: int, forceUnsigned: bool): int {
    if cast.None? then val else
      var isUnsigned := forceUnsigned || cast.value.isUnsigned;
      var sz := cast.value.size;
      if sz == 1 then (if isUnsigned then ToUnsigned(val, TWO_8) else ToSigned(val, TWO_8))
      else if sz == 2 then (if isUnsigned then ToUnsigned(val, TWO_16) else ToSigned(val, TWO_16))
      else if sz == 4 then (if isUnsigned then ToUnsigned(val, TWO_32) else ToSigned(val, TWO_32))
      else if sz == 8 then (if isUnsigned then ToUnsigned(val, TWO_64) else ToSigned(val, TWO_64))
      else val
  }

  predicate Fits(v: int, m: nat, unsigned: bool)
    requires m > 0
  {
    if unsigned then 0 <= v < m else -(m / 2) <= v < m / 2
  }

  predicate Congruent(a: int, b: int, m: nat)
    requires m > 0
  {
    a % m == b % m
  }

  // ----- residues

  lemma AddMultiple(x: int, k: int, m: nat)
    requires m > 0
    ensures (x + k * m) % m == x % m
  {
    var q, r := x / m, x % m;
    assert x == m * q + r;
    assert x + k * m == (q + k) * m + r;
    DivUnique(x + k * m, m, q + k, r);
  }

  lemma CongruentIsMultiple(a: int, b: int, m: nat) returns (k: int)
    requires m > 0 && Congruent(a, b, m)
    ensures a == b + k * m
  {
    k := a / m - b / m;
    assert a == m * (a / m) + a % m && b == m * (b / m) + b % m;
    assert k * m == m * (a / m) - m * (b / m);
  }

  lemma CongruentSum(a: int, b: int, c: int, d: int, m: nat)
    requires m > 0 && Congruent(a, b, m) && Congruent(c, d, m)
    ensures Congruent(a + c, b + d, m)
  {
    var j := CongruentIsMultiple(a, b, m);
    var k := CongruentIsMultiple(c, d, m);
    assert a + c == b + d + (j + k) * m;
    AddMultiple(b + d, j + k, m);
  }

  lemma CongruentProduct(a: int, b: int, c: int, d: int, m: nat)
    requires m > 0 && Congruent(a, b, m) && Congruent(c, d, m)
    ensures Congruent(a * c, b * d, m)
  {
    var j := CongruentIsMultiple(a, b, m);
    var k := CongruentIsMultiple(c, d, m);
    ProductOfSums(b, j, d, k, m);
    AddMultiple(b * d, b * k + j * d + j * k * m, m);
  }

  lemma ProductOfSums(b: int, j: int, d: int, k: int, m: int)
    ensures (b + j * m) * (d + k * m) == b * d + (b * k + j * d + j * k * m) * m
  {
    var x, y := j * m, k * m;
    assert (b + x) * (d + y) == b * d + b * y + x * d + x * y;
    assert b * y == b * k * m && x * d == j * d * m && x * y == j * k * m * m;
  }

  /** Congruence modulo a range is congruence modulo every range that divides it. */
  lemma CongruentCoarser(a: int, b: int, fine: nat, n: nat)
    requires fine > 0 && n > 0 && Congruent(a, b, n * fine)
    ensures Congruent(a, b, fine)
  {
    var k := CongruentIsMultiple(a, b, n * fine);
    assert k * (n * fine) == (k * n) * fine;
    AddMultiple(b, k * n, fine);
  }

  // ----- what a cast computes

  lemma ConvertSpec(v: int, m: nat, unsigned: bool)
    requires m > 0 && m % 2 == 0
    ensures Fits(Convert(v, m, unsigned), m, unsigned) && Congruent(Convert(v, m, unsigned), v, m)
  {
    AddMultiple(v % m, -1, m);
    DivUnique(v % m, m, 0, v % m);
  }

  /** Two values in range with one residue are one value. */
  lemma FitsUnique(a: int, b: int, m: nat, unsigned: bool)
    requires m > 0 && m % 2 == 0 && Fits(a, m, unsigned) && Fits(b, m, unsigned) && Congruent(a, b, m)
    ensures a == b
  {
    var k := CongruentIsMultiple(a, b, m);
    if k >= 1 { MulAtLeast(k, m); }
    assert k * m == -((-k) * m);
    if k <= -1 { MulAtLeast(-k, m); }
  }

  function Signedness(t: IntType, forceUnsigned: bool): bool {
    forceUnsigned || t.isUnsigned
  }

  /** A cast to 1, 2, 4 or 8 bytes yields THE value of the target's range congruent to its input. */
  lemma CastIsTheValueInRange(t: IntType, val: int, forceUnsigned: bool, v: int)
    requires t.size in {1, 2, 4, 8}
    ensures var m, unsigned := Modulus(t.size), Signedness(t, forceUnsigned);
            v == ApplyIntegerCast(Some(t), val, forceUnsigned) <==> Fits(v, m, unsigned) && Congruent(v, val, m)
  {
    var m, unsigned := Modulus(t.size), Signedness(t, forceUnsigned);
    var r := ApplyIntegerCast(Some(t), val, forceUnsigned);
    assert r == Convert(val, m, unsigned);
    ConvertSpec(val, m, unsigned);
    hide Convert, ToSigned, ToUnsigned, ApplyIntegerCast, Modulus;
    if Fits(v, m, unsigned) && Congruent(v, val, m) { FitsUnique(v, r, m, unsigned); }
  }

  /** A cast leaves a value as it is exactly when there is no type, the type is of another size, such
      as 16 bytes, or the value is in the type's range. */
  lemma CastChangesNothingIff(cast: Option<IntType>, val: int, forceUnsigned: bool)
    ensures ApplyIntegerCast(cast, val, forceUnsigned) == val
            <==> cast.None? || cast.value.size !in {1, 2, 4, 8}
                 || Fits(val, Modulus(cast.value.size), Signedness(cast.value, forceUnsigned))
  {
    if cast.Some? && cast.value.size in {1, 2, 4, 8} {
      CastIsTheValueInRange(cast.value, val, forceUnsigned, val);
      hide ApplyIntegerCast, Fits, Modulus;
    }
  }

  lemma CastIdempotent(t: IntType, val: int, forceUnsigned: bool)
    requires t.size in {1, 2, 4, 8}
    ensures var once := ApplyIntegerCast(Some(t), val, forceUnsigned);
            ApplyIntegerCast(Some(t), once, forceUnsigned) == once
  {
    var once := ApplyIntegerCast(Some(t), val, forceUnsigned);
    CastIsTheValueInRange(t, val, forceUnsigned, once);
    CastIsTheValueInRange(t, once, forceUnsigned, once);
  }

  /** A cast absorbs an earlier cast to a type at least as wide, of either signedness. */
  lemma NarrowAbsorbsWide(narrow: IntType, wide: IntType, val: int, f: bool, g: bool)
    requires narrow.size in {1, 2, 4, 8} && wide.size in {1, 2, 4, 8} && narrow.size <= wide.size
    ensures ApplyIntegerCast(Some(narrow), ApplyIntegerCast(Some(wide), val, g), f)
         == ApplyIntegerCast(Some(narrow), val, f)
  {
    var w := ApplyIntegerCast(Some(wide), val, g);
    var r := ApplyIntegerCast(Some(narrow), w, f);
    CastIsTheValueInRange(wide, val, g, w);
    CastIsTheValueInRange(narrow, w, f, r);
    CastIsTheValueInRange(narrow, val, f, r);
    var n := Modulus(wide.size) / Modulus(narrow.size);
    assert Modulus(wide.size) == n * Modulus(narrow.size);
    hide ApplyIntegerCast, Modulus;
    CongruentCoarser(w, val, Modulus(narrow.size), n);
  }

  /** The carrier holds the signed 128-bit value congruent to a result, so one in its range as it is. */
  lemma CarrierIsSigned128(v: int, c: int)
    ensures c == Carried(v) <==> -TWO_128 / 2 <= c < TWO_128 / 2 && Congruent(c, v, TWO_128)
  {
    ConvertSpec(v, TWO_128, false);
    hide ToSigned;
    if -TWO_128 / 2 <= c < TWO_128 / 2 && Congruent(c, v, TWO_128) { FitsUnique(c, Carried(v), TWO_128, false); }
  }

  lemma CarriedCongruent(v: int, size: nat)
    requires size in {1, 2, 4, 8}
    ensures Congruent(Carried(v), v, Modulus(size))
  {
    ConvertSpec(v, TWO_128, false);
    var n := TWO_128 / Modulus(size);
    assert TWO_128 == n * Modulus(size);
    CongruentCoarser(Carried(v), v, Modulus(size), n);
  }

  lemma CastOfCongruent(t: IntType, a: int, b: int, f: bool)
    requires t.size in {1, 2, 4, 8} && Congruent(a, b, Modulus(t.size))
    ensures ApplyIntegerCast(Some(t), a, f) == ApplyIntegerCast(Some(t), b, f)
  {
    var r := ApplyIntegerCast(Some(t), a, f);
    CastIsTheValueInRange(t, a, f, r);
    CastIsTheValueInRange(t, b, f, r);
  }

  /** Folding in the carrier and casting at the end, or casting the operands first as well, gives
      one result: for sums and products, carrier wrap-around included. */
  lemma CastCommutesWithFolding(t: IntType, a: int, b: int, f: bool)
    requires t.size in {1, 2, 4, 8}
    ensures var x, y := ApplyIntegerCast(Some(t), a, f), ApplyIntegerCast(Some(t), b, f);
            && ApplyIntegerCast(Some(t), Carried(x + y), f) == ApplyIntegerCast(Some(t), Carried(a + b), f)
            && ApplyIntegerCast(Some(t), Carried(x * y), f) == ApplyIntegerCast(Some(t), Carried(a * b), f)
  {
    var x, y, m := ApplyIntegerCast(Some(t), a, f), ApplyIntegerCast(Some(t), b, f), Modulus(t.size);
    CastIsTheValueInRange(t, a, f, x);
    CastIsTheValueInRange(t, b, f, y);
    hide ApplyIntegerCast, Modulus, Carried;
    CongruentSum(x, a, y, b, m);
    CongruentProduct(x, a, y, b, m);
    CarriedCongruent(x + y, t.size);
    CarriedCongruent(a + b, t.size);
    CarriedCongruent(x * y, t.size);
    CarriedCongruent(a * b, t.size);
    CastOfCongruent(t, Carried(x + y), Carried(a + b), f);
    CastOfCongruent(t, Carried(x * y), Carried(a * b), f);
  }
}
