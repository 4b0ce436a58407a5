/** Typed constants kept in a byte block whose width has a rule of its own. */
module ConstantSlot {
  import opened Alignment
  import opened Common
  import opened IntegerCast

  /** The types the slot rules tell apart; `Scalar` is any other, integer or not. */
  datatype Kind =
    | Int | Char | Bool | Int24 | UInt24 | Float | Double
    | Enum(enumSize: nat)
    | Scalar(scalarSize: nat, isInteger: bool, isUnsigned: bool)

  /** A declared type: an object's own cv is peeled before its slot is considered. */
  datatype DataDef = DataDef(unqualified: Kind, isQualified: bool)

  datatype SlotKind =
    | NoSlot | CharSlot | BoolSlot | I8 | I16 | I32 | I64 | U8 | U16 | U32 | U64 | I128 | U128
    | FloatSlot | DoubleSlot

  function SizeOf(k: Kind): nat {
    match k
    case Int => 4
    case Char => 1
    case Bool => 1
    case Int24 => 3
    case UInt24 => 3
    case Float => 4
    case Double => 8
    case Enum(n) => n
    case Scalar(n, _, _) => n
  }

  /** The width of the value block: an int and an enum carry 64 bits whatever their size. */
  function SlotSize(k: Kind): nat {
    if k.Enum? then 8 else if k.Int? && SizeOf(k) < 8 then 8 else SizeOf(k)
  }

  function SlotKindOf(k: Kind): SlotKind {
    match k
    case Char => CharSlot
    case Bool => BoolSlot
    case Int => I64
    case Enum(_) => I64
    case Int24 => I16
    case UInt24 => U16
    case Float => FloatSlot
    case Double => DoubleSlot
    case Scalar(n, isInteger, uns) =>
      if !isInteger then NoSlot
      else if n == 1 then (if uns then U8 else I8)
      else if n == 2 then (if uns then U16 else I16)
      else if n == 4 then (if uns then U32 else I32)
      else if n == 8 then (if uns then U64 else I64)
      else if n == 16 then (if uns then U128 else I128)
      else NoSlot
  }

  /** The bytes one store through the slot's own pointer type touches. */
  function Width(s: SlotKind): nat {
    match s
    case NoSlot => 0
    case CharSlot => 1
    case BoolSlot => 1
    case I8 => 1
    case U8 => 1
    case I16 => 2
    case U16 => 2
    case I32 => 4
    case U32 => 4
    case FloatSlot => 4
    case I64 => 8
    case U64 => 8
    case DoubleSlot => 8
    case I128 => 16
    case U128 => 16
  }

  predicate IsFloating(s: SlotKind) {
    s.FloatSlot? || s.DoubleSlot?
  }

  predicate IsUnsigned(s: SlotKind) {
    s in {U8, U16, U32, U64, U128}
  }

  /** No type's slot is stored through a pointer wider than its block. */
  lemma WidthFitsSlot(k: Kind)
    ensures Width(SlotKindOf(k)) <= SlotSize(k)
  {}

  // ----- little-endian bytes

  function Pow256(w: nat): (m: nat)
    ensures m > 0 && (w > 0 ==> m % 2 == 0)
  {
    if w == 0 then 1 else 256 * Pow256(w - 1)
  }

  function Encode(v: nat, w: nat): (bytes: seq<byte>)
    ensures |bytes| == w
  {
    if w == 0 then [] else [(v % 256) as byte] + Encode(v / 256, w - 1)
  }

  function Decode(bytes: seq<byte>): nat {
    if bytes == [] then 0 else bytes[0] as nat + 256 * Decode(bytes[1..])
  }

  lemma {:induction false} DecodeBound(bytes: seq<byte>)
    ensures Decode(bytes) < Pow256(|bytes|)
  {
    if bytes != [] { DecodeBound(bytes[1..]); }
  }

  lemma LowByteFirst(v: nat, p: nat)
    requires p > 0
    ensures v % (256 * p) == v % 256 + 256 * (v / 256 % p)
  {
    var q, r := v / 256 / p, v / 256 % p;
    assert v / 256 == p * q + r;
    assert q * (256 * p) == 256 * (p * q);
    DivUnique(v, 256 * p, q, 256 * r + v % 256);
  }

  lemma {:induction false} DecodeEncode(v: nat, w: nat)
    ensures Decode(Encode(v, w)) == v % Pow256(w)
  {
    if w > 0 {
      DecodeEncode(v / 256, w - 1);
      assert Encode(v, w)[1..] == Encode(v / 256, w - 1);
      LowByteFirst(v, Pow256(w - 1));
    }
  }

  lemma PowersOf256()
    ensures Pow256(1) == TWO_8 && Pow256(2) == TWO_16 && Pow256(4) == TWO_32 && Pow256(8) == TWO_64
    ensures Pow256(16) == TWO_128
  {
    assert Pow256(3) == 256 * TWO_16 && Pow256(4) == TWO_32;
    assert Pow256(6) == TWO_16 * TWO_32 && Pow256(8) == TWO_64;
    assert Pow256(10) == TWO_16 * TWO_64 && Pow256(12) == TWO_32 * TWO_64;
    assert Pow256(14) == TWO_16 * TWO_32 * TWO_64;
  }

  // ----- the value in a slot

  /** The value `c` becomes in the slot. */
  function Normalized(s: SlotKind, c: int, charSigned: bool): int
    requires !s.NoSlot? && !IsFloating(s)
  {
    if s.BoolSlot? then (if c != 0 then 1 else 0)
    else Convert(c, Pow256(Width(s)), IsUnsigned(s) || (s.CharSlot? && !charSigned))
  }

  /** The value the slot's bytes hold. */
  function Held(s: SlotKind, block: seq<byte>, charSigned: bool): int
    requires !s.NoSlot? && !IsFloating(s) && Width(s) <= |block|
  {
    Normalized(s, Decode(block[..Width(s)]), charSigned)
  }

  function Image(s: SlotKind, c: int): (bytes: seq<byte>)
    requires !s.NoSlot? && !IsFloating(s)
    ensures |bytes| == Width(s)
  {
    if s.BoolSlot? then [if c != 0 then 1 else 0] else Encode(c % Pow256(Width(s)), Width(s))
  }

  lemma NormalizedModulo(s: SlotKind, c: int, d: int, charSigned: bool)
    requires !s.NoSlot? && !IsFloating(s) && !s.BoolSlot? && Congruent(c, d, Pow256(Width(s)))
    ensures Normalized(s, c, charSigned) == Normalized(s, d, charSigned)
  {}

  lemma ImageHolds(s: SlotKind, c: int, rest: seq<byte>, charSigned: bool)
    requires !s.NoSlot? && !IsFloating(s)
    ensures Held(s, Image(s, c) + rest, charSigned) == Normalized(s, c, charSigned)
  {
    var w := Width(s);
    assert (Image(s, c) + rest)[..w] == Image(s, c);
    if s.BoolSlot? {
      assert Decode(Image(s, c)) == (if c != 0 then 1 else 0) by { assert Image(s, c)[1..] == []; }
    } else {
      var m := Pow256(w);
      DecodeEncode(c % m, w);
      DivUnique(c % m, m, 0, c % m);
      NormalizedModulo(s, Decode(Image(s, c)), c, charSigned);
    }
  }

  lemma HeldIsNormal(s: SlotKind, c: int, charSigned: bool)
    requires !s.NoSlot? && !IsFloating(s)
    ensures Normalized(s, Normalized(s, c, charSigned), charSigned) == Normalized(s, c, charSigned)
  {
    if !s.BoolSlot? {
      ConvertSpec(c, Pow256(Width(s)), IsUnsigned(s) || (s.CharSlot? && !charSigned));
      NormalizedModulo(s, Normalized(s, c, charSigned), c, charSigned);
    }
  }

  /** What a 64-bit read sees of a value. */
  function As64(v: int): int {
    ToSigned(v, TWO_64)
  }

  /** Writing back what a 64-bit read of v saw gives the same 64-bit read. */
  lemma ReadBack64(s: SlotKind, v: int, charSigned: bool)
    requires !s.NoSlot? && !IsFloating(s) && v == Normalized(s, v, charSigned)
    ensures As64(Normalized(s, As64(v), charSigned)) == As64(v)
    ensures Width(s) <= 8 ==> Normalized(s, As64(v), charSigned) == v
    ensures Width(s) == 16 ==> (Normalized(s, As64(v), charSigned) == v <==> CarriedBy64(s, v))
  {
    var m, r := Pow256(Width(s)), As64(v);
    PowersOf256();
    ConvertSpec(v, TWO_64, false);
    if s.BoolSlot? {
      assert TWO_64 % 2 == 0 && v % TWO_64 == v;
    } else {
      ConvertSpec(r, m, IsUnsigned(s) || (s.CharSlot? && !charSigned));
      var n := Normalized(s, r, charSigned);
      if Width(s) <= 8 {
        assert TWO_64 == (TWO_64 / m) * m;
        CongruentCoarser(r, v, m, TWO_64 / m);
        NormalizedModulo(s, r, v, charSigned);
      } else {
        assert m == TWO_128 && TWO_128 == TWO_64 * TWO_64;
        CongruentCoarser(n, r, TWO_64, TWO_64);
        ConvertSpec(n, TWO_64, false);
        FitsUnique(As64(n), r, TWO_64, false);
        WideReadBack(s, v, charSigned);
      }
    }
  }

  /** The 128-bit values that survive a trip through a signed 64-bit one. */
  predicate CarriedBy64(s: SlotKind, v: int) {
    Fits(v, TWO_64, false) || (s.U128? && v >= TWO_128 - TWO_64 / 2)
  }

  lemma WideOfSmall(r: int, unsigned: bool)
    requires Fits(r, TWO_64, false)
    ensures Convert(r, TWO_128, unsigned) == if unsigned && r < 0 then r + TWO_128 else r
  {
    ConvertSpec(r, TWO_128, unsigned);
    AddMultiple(r, 1, TWO_128);
    FitsUnique(Convert(r, TWO_128, unsigned), if unsigned && r < 0 then r + TWO_128 else r, TWO_128, unsigned);
  }

  lemma SmallOfWide(v: int)
    ensures Fits(As64(v), TWO_64, false)
    ensures Fits(v, TWO_64, false) ==> As64(v) == v
    ensures TWO_128 - TWO_64 / 2 <= v < TWO_128 ==> As64(v) == v - TWO_128
  {
    ConvertSpec(v, TWO_64, false);
    hide ToSigned;
    if Fits(v, TWO_64, false) { FitsUnique(v, As64(v), TWO_64, false); }
    if TWO_128 - TWO_64 / 2 <= v < TWO_128 {
      AddMultiple(v, -TWO_64, TWO_64);
      FitsUnique(v - TWO_128, As64(v), TWO_64, false);
    }
  }

  lemma WideReadBack(s: SlotKind, v: int, charSigned: bool)
    requires (s.I128? || s.U128?) && v == Normalized(s, v, charSigned)
    ensures Normalized(s, As64(v), charSigned) == v <==> CarriedBy64(s, v)
  {
    PowersOf256();
    ConvertSpec(v, TWO_128, s.U128?);
    SmallOfWide(v);
    WideOfSmall(As64(v), s.U128?);
    hide Convert, As64;
  }

  /** A target's floating-point conversions: the image of a whole number, the whole number a 64-bit
      read makes of an image, and an image stepped. */
  datatype Floats = Floats(
    image: (SlotKind, int) -> seq<byte>,
    whole: (SlotKind, seq<byte>) -> int,
    plus: (SlotKind, seq<byte>, int) -> seq<byte>)

  /** Images have their slot's width, and a whole number read off one, stored again, reads the same. */
  ghost predicate Lawful(f: Floats) {
    && (forall s, c :: IsFloating(s) ==> |f.image(s, c)| == Width(s))
    && (forall s, b, c :: IsFloating(s) && |b| == Width(s) ==> |f.plus(s, b, c)| == Width(s))
    && (forall s, b :: IsFloating(s) && |b| == Width(s) ==>
          f.whole(s, f.image(s, f.whole(s, b))) == f.whole(s, b))
  }

  /** What one store of c writes. */
  function Stored(s: SlotKind, c: int, floats: Floats): seq<byte>
    requires !s.NoSlot?
  {
    if IsFloating(s) then floats.image(s, c) else Image(s, c)
  }

  /** What a 64-bit read sees of a block. */
  function Read64(s: SlotKind, block: seq<byte>, charSigned: bool, floats: Floats): int
    requires !s.NoSlot? && Width(s) <= |block|
  {
    if IsFloating(s) then floats.whole(s, block[..Width(s)]) else As64(Held(s, block, charSigned))
  }

  /** What a 64-bit read sees once c is stored. */
  function Kept(s: SlotKind, c: int, charSigned: bool, floats: Floats): int
    requires !s.NoSlot?
  {
    if IsFloating(s) then floats.whole(s, floats.image(s, c)) else As64(Normalized(s, c, charSigned))
  }

  lemma StoredReads(s: SlotKind, c: int, rest: seq<byte>, charSigned: bool, floats: Floats)
    requires !s.NoSlot? && Lawful(floats)
    ensures |Stored(s, c, floats)| == Width(s)
    ensures Read64(s, Stored(s, c, floats) + rest, charSigned, floats) == Kept(s, c, charSigned, floats)
  {
    if IsFloating(s) {
      var image := floats.image(s, c);
      assert |image| == Width(s) && (image + rest)[..Width(s)] == image;
    } else {
      ImageHolds(s, c, rest, charSigned);
    }
    hide As64, Held, Normalized, Image;
  }

  /** What was read, stored in the same slot, reads the same again. */
  lemma ReadStoredAgain(s: SlotKind, block: seq<byte>, charSigned: bool, floats: Floats)
    requires !s.NoSlot? && Width(s) <= |block| && Lawful(floats)
    ensures var v := Read64(s, block, charSigned, floats); Kept(s, v, charSigned, floats) == v
  {
    if IsFloating(s) {
      assert |block[..Width(s)]| == Width(s);
    } else {
      HeldIsNormal(s, Decode(block[..Width(s)]), charSigned);
      ReadBack64(s, Held(s, block, charSigned), charSigned);
    }
  }

  // ----- what a type's slot holds, read off the type

  /** The bytes and the signedness of the integer a type's slot holds; none for a bool and a
      floating-point type, and for a type that has no slot. */
  function Carrier(k: Kind, charSigned: bool): Option<IntType> {
    match k
    case Int => Some(IntType(8, false))
    case Enum(_) => Some(IntType(8, false))
    case Char => Some(IntType(1, !charSigned))
    case Int24 => Some(IntType(2, false))
    case UInt24 => Some(IntType(2, true))
    case Scalar(n, isInteger, uns) =>
      if isInteger && n in {1, 2, 4, 8, 16} then Some(IntType(n, uns)) else None
    case Bool => None
    case Float => None
    case Double => None
  }

  predicate HasSlot(k: Kind, charSigned: bool) {
    Carrier(k, charSigned).Some? || k in {Bool, Float, Double}
  }

  /** v is the value of type t congruent to c. */
  ghost predicate Represents(t: IntType, c: int, v: int) {
    Fits(v, Pow256(t.size), t.isUnsigned) && Congruent(v, c, Pow256(t.size))
  }

  /** What a type's slot makes of c: THE value of the type's range congruent to it, 0 or 1 for a
      bool; and a type has a slot exactly if it is a bool, an integer or a floating-point one. */
  lemma SlotHoldsItsType(k: Kind, c: int, charSigned: bool, v: int)
    ensures var s, t := SlotKindOf(k), Carrier(k, charSigned);
            && (s.NoSlot? <==> !HasSlot(k, charSigned))
            && (IsFloating(s) <==> k.Float? || k.Double?)
            && (k.Float? ==> s == FloatSlot && Width(s) == 4) && (k.Double? ==> s == DoubleSlot && Width(s) == 8)
            && (s.NoSlot? || IsFloating(s) || (t.None? <==> k.Bool?))
            && (t.Some? ==> t.value.size == Width(s) && !s.NoSlot? && !IsFloating(s)
                            && (v == Normalized(s, c, charSigned) <==> Represents(t.value, c, v)))
            && (k.Bool? ==> Normalized(s, c, charSigned) == if c == 0 then 0 else 1)
  {
    hide Convert, Pow256, Represents;
    if Carrier(k, charSigned).Some? {
      SlotConverts(k, c, charSigned);
      ConvertRepresents(Carrier(k, charSigned).value, c, v);
    }
  }

  lemma SlotConverts(k: Kind, c: int, charSigned: bool)
    requires Carrier(k, charSigned).Some?
    ensures var s, t := SlotKindOf(k), Carrier(k, charSigned).value;
            && !s.NoSlot? && !IsFloating(s) && Width(s) == t.size > 0
            && Normalized(s, c, charSigned) == Convert(c, Pow256(t.size), t.isUnsigned)
  {
    hide Convert, Pow256;
  }

  lemma ConvertRepresents(t: IntType, c: int, v: int)
    requires t.size > 0
    ensures v == Convert(c, Pow256(t.size), t.isUnsigned) <==> Represents(t, c, v)
  {
    var m := Pow256(t.size);
    ConvertSpec(c, m, t.isUnsigned);
    hide Convert, Pow256;
    if Represents(t, c, v) { FitsUnique(v, Convert(c, m, t.isUnsigned), m, t.isUnsigned); }
  }

  /** An integer scalar's slot holds what the cast to its type yields. */
  lemma SlotHoldsTheCast(n: nat, uns: bool, c: int, charSigned: bool)
    requires n in {1, 2, 4, 8}
    ensures !SlotKindOf(Scalar(n, true, uns)).NoSlot? && !IsFloating(SlotKindOf(Scalar(n, true, uns)))
    ensures Normalized(SlotKindOf(Scalar(n, true, uns)), c, charSigned)
         == ApplyIntegerCast(Some(IntType(n, uns)), c, false)
  {
    var v := ApplyIntegerCast(Some(IntType(n, uns)), c, false);
    PowersOf256();
    CastIsTheValueInRange(IntType(n, uns), c, false, v);
    SlotHoldsItsType(Scalar(n, true, uns), c, charSigned, v);
    hide ApplyIntegerCast, Normalized, Pow256;
  }

  /** A 64-bit read of a value: the signed 64-bit one congruent to it. */
  lemma Reads64(v: int)
    ensures Fits(As64(v), TWO_64, false) && Congruent(As64(v), v, TWO_64)
  {
    ConvertSpec(v, TWO_64, false);
  }

  /** The image of c has its bytes in order, the lowest first. */
  lemma {:induction false} EncodedByte(v: nat, w: nat, k: nat)
    requires k < w
    ensures Encode(v, w)[k] as nat == v / Pow256(k) % 256
    decreases w
  {
    if k > 0 {
      EncodedByte(v / 256, w - 1, k - 1);
      DivTwice(v, Pow256(k - 1));
    }
  }

  lemma DivTwice(v: nat, p: nat)
    requires p > 0
    ensures v / (256 * p) == v / 256 / p
  {
    var q, r := v / 256 / p, v / 256 % p;
    assert v / 256 == p * q + r;
    assert q * (256 * p) == 256 * (p * q);
    DivUnique(v, 256 * p, q, 256 * r + v % 256);
  }

  class Variable {
    /** Whether the target's plain char is signed. */
    const charSigned: bool
    const floats: Floats
    var data: array?<byte>
    var ty: DataDef

    /** The block is at least as wide as the slot of the variable's type. */
    ghost predicate Valid()
      reads this
    {
      Lawful(floats) && (data != null ==> SlotSize(ty.unqualified) <= data.Length)
    }

    function Slot(): SlotKind
      reads this
    {
      SlotKindOf(ty.unqualified)
    }

    constructor (d: DataDef, charSigned: bool, floats: Floats)
      requires Lawful(floats)
      ensures Valid() && ty == d && this.charSigned == charSigned && this.floats == floats
      ensures SizeOf(d.unqualified) > 0 ==> data != null && data.Length == SlotSize(d.unqualified)
      ensures SizeOf(d.unqualified) == 0 ==> data == null
      ensures data != null && (d.unqualified.Int? || d.unqualified.Enum? || d.unqualified.Double?) ==> data.Length == 8
      ensures data != null && (d.unqualified.Char? || d.unqualified.Bool?) ==> data.Length == 1
      ensures data != null && (d.unqualified.Int24? || d.unqualified.UInt24?) ==> data.Length == 3
      ensures data != null && d.unqualified.Float? ==> data.Length == 4
      ensures data != null && d.unqualified.Scalar? ==> data.Length == d.unqualified.scalarSize
    {
      ty := d;
      this.charSigned := charSigned;
      this.floats := floats;
      if SizeOf(d.unqualified) > 0 {
        data := new byte[SlotSize(d.unqualified)](_ => 0);
      } else {
        data := null;
      }
    }

    ghost predicate HoldsInteger()
      reads this
    {
      data != null && !Slot().NoSlot? && !IsFloating(Slot())
    }

    function Value(): int
      reads this, data
      requires Valid() && HoldsInteger()
    {
      Held(Slot(), data[..], charSigned)
    }

    /** get<int64_t>: no block reads as 0, a type without a slot as 1. */
    function Get(): int
      reads this, data
      requires Valid()
    {
      if data == null then 0 else if Slot().NoSlot? then 1 else Read64(Slot(), data[..], charSigned, floats)
    }

    /** The slot holds the value of the variable's own type congruent to c, a bool's whether c is not
        0; and a 64-bit read answers the signed 64-bit number congruent to what is held. */
    ghost predicate HoldsItsType(c: int)
      reads this, data
      requires Valid() && data != null
    {
      var t := Carrier(ty.unqualified, charSigned);
      && (HoldsInteger() <==> t.Some? || ty.unqualified.Bool?)
      && (t.Some? ==> HoldsInteger() && Represents(t.value, c, Value()))
      && (ty.unqualified.Bool? ==> HoldsInteger() && Value() == if c == 0 then 0 else 1)
      && (HoldsInteger() ==> Fits(Get(), TWO_64, false) && Congruent(Get(), Value(), TWO_64))
    }

    /** A floating-point slot holds the image of c. */
    ghost predicate HoldsImage(c: int)
      reads this, data
      requires Valid()
    {
      data != null && IsFloating(Slot()) ==> data[..Width(Slot())] == floats.image(Slot(), c)
    }

    lemma NormalizedIsOfType(c: int)
      requires Valid() && data != null && (HoldsInteger() ==> Value() == Normalized(Slot(), c, charSigned))
      ensures HoldsItsType(c)
    {
      SlotHoldsItsType(ty.unqualified, c, charSigned, if HoldsInteger() then Value() else 0);
      if HoldsInteger() { Reads64(Value()); }
      hide Held, Normalized, As64, SlotKindOf, Represents, Carrier, Pow256;
    }

    /** Stores c through the slot's pointer type. */
    method Set(c: int) returns (ok: bool)
      requires Valid()
      modifies data
      ensures ok == (data != null && !Slot().NoSlot?)
      ensures data != null ==> data[Width(Slot())..] == old(data[Width(Slot())..])
      ensures ok ==> data[..] == Stored(Slot(), c, floats) + old(data[Width(Slot())..])
      ensures ok ==> Get() == Kept(Slot(), c, charSigned, floats)
      ensures HoldsInteger() ==> Value() == Normalized(Slot(), c, charSigned)
      ensures ok == (data != null && HasSlot(ty.unqualified, charSigned))
      ensures data != null ==> HoldsItsType(c)
    {
      if data == null { return false; }
      WidthFitsSlot(ty.unqualified);
      var s := Slot();
      if s.NoSlot? { return false; }
      ghost var rest := data[Width(s)..];
      StoredReads(s, c, rest, charSigned, floats);
      if !IsFloating(s) { ImageHolds(s, c, rest, charSigned); }
      hide Held, Normalized, Image, As64, Kept, Read64, SlotSize, SlotKindOf, Lawful;
      Store(Stored(s, c, floats));
      NormalizedIsOfType(c);
      return true;
    }

    /** Overwrites the first bytes of the block. */
    method Store(image: seq<byte>)
      requires data != null && |image| <= data.Length
      modifies data
      ensures data[..] == image + old(data[|image|..])
    {
      forall i | 0 <= i < |image| { data[i] := image[i]; }
    }

    /** `++` and `--`: the held value plus delta, converted back to the slot's type. */
    method Step(delta: int) returns (ok: bool)
      requires Valid()
      modifies data
      ensures ok == (data != null)
      ensures data != null ==> data[Width(Slot())..] == old(data[Width(Slot())..])
      ensures HoldsInteger() ==> Value() == Normalized(Slot(), old(Value()) + delta, charSigned)
      ensures HoldsInteger() ==> HoldsItsType(old(Value()) + delta)
      ensures data != null && IsFloating(Slot()) ==>
                data[..Width(Slot())] == floats.plus(Slot(), old(data[..Width(Slot())]), delta)
    {
      if data == null { return false; }
      WidthFitsSlot(ty.unqualified);
      var s := Slot();
      if s.NoSlot? { return true; }
      if IsFloating(s) {
        var stepped := floats.plus(s, data[..Width(s)], delta);
        assert |stepped| == Width(s);
        Store(stepped);
        return true;
      }
      ok := Set(Held(s, data[..], charSigned) + delta);
    }

    /** What was read, stored through the slot's own type, reads the same again. */
    lemma GotReadsBack()
      requires Valid()
      ensures Get() == if data == null then 0 else if Slot().NoSlot? then 1
                       else Kept(Slot(), Get(), charSigned, floats)
    {
      WidthFitsSlot(ty.unqualified);
      if data != null && !Slot().NoSlot? { ReadStoredAgain(Slot(), data[..], charSigned, floats); }
      hide Kept, Read64, SlotKindOf, Width;
    }

    /** Gives the variable type t, with v stored through its slot. */
    method Retype(t: DataDef, v: int) returns (stored: bool)
      requires Lawful(floats) && (data != null ==> SlotSize(t.unqualified) <= data.Length)
      modifies `ty, data
      ensures Valid() && ty == t && stored == (data != null && !Slot().NoSlot?)
      ensures HoldsImage(v)
      ensures HoldsInteger() ==> Value() == Normalized(Slot(), v, charSigned)
      ensures Get() == if data == null then 0 else if !stored then 1 else Kept(Slot(), v, charSigned, floats)
    {
      hide Held, Normalized, Image, As64, Kept, Read64, SlotKindOf, Width, Lawful;
      ty := t;
      stored := Set(v);
      if stored { StoredReads(Slot(), v, [], charSigned, floats); }
    }

    /** Retypes a constant after its value is known, if its 64-bit reading keeps; else the type
        stays. An integer of 64 bits is kept either way in an integer slot, unless it is negative and
        now held in an unsigned slot of 64 or 128 bits. */
    method RetypeConstant(t: DataDef) returns (ok: bool)
      requires Valid()
      modifies `ty, data
      ensures Valid() && data == old(data) && ty == if ok then t else old(ty)
      ensures Get() == old(Get())
      ensures ok <==> data != null && !SlotKindOf(t.unqualified).NoSlot?
                      && SlotSize(t.unqualified) <= SlotSize(old(ty).unqualified)
                      && Kept(SlotKindOf(t.unqualified), old(Get()), charSigned, floats) == old(Get())
      ensures HoldsInteger() ==> Value() == Normalized(Slot(), old(Get()), charSigned)
      ensures data != null ==> HoldsItsType(old(Get()))
      ensures HoldsImage(old(Get()))
      ensures HoldsInteger() && old(HoldsInteger() && Fits(Value(), TWO_64, false)) ==>
                (Value() == old(Value()) <==> !(ok && old(Value()) < 0 && (Slot().U64? || Slot().U128?)))
    {
      var v := Get();
      var was := ty;
      GotReadsBack();
      if HoldsInteger() { ValueReadsBack(); }
      hide HoldsItsType, Held, Normalized, Image, As64, Kept, Read64, SlotKindOf, SlotSize, Width, IsFloating, Lawful;
      hide Get, Value, Fits;
      if SlotSize(t.unqualified) <= SlotSize(was.unqualified) {
        var stored := Retype(t, v);
        if stored && Get() == v {
          if HoldsInteger() { KeptByInteger(v); }
          NormalizedIsOfType(v);
          return true;
        }
      }
      var restored := Retype(was, v);
      if data != null { NormalizedIsOfType(v); }
      return false;
    }

    /** In an integer slot, a value that was stored and reads as it was is the one stored unless
        negative in a wide unsigned slot. */
    lemma KeptByInteger(v: int)
      requires Valid() && HoldsInteger() && Value() == Normalized(Slot(), v, charSigned) && Get() == v
      ensures Fits(v, TWO_64, false) ==> (Value() == v <==> !(v < 0 && (Slot().U64? || Slot().U128?)))
    {
      hide Held, Normalized, As64, SlotKindOf, Fits;
      assert Get() == As64(Value());
      if Fits(v, TWO_64, false) { RetypedValueIffNotNegativeUnsigned(Slot(), v, charSigned); }
    }

    /** A value of 64 bits is what a 64-bit read answers, and is stored as itself. */
    lemma ValueReadsBack()
      requires Valid() && HoldsInteger()
      ensures Fits(Value(), TWO_64, false) ==> Get() == Value() == Normalized(Slot(), Get(), charSigned)
    {
      HeldIsNormal(Slot(), Decode(data[..][..Width(Slot())]), charSigned);
      SmallOfWide(Value());
      hide Normalized, As64, SlotKindOf, Fits;
    }
  }

  /** The slot a constant leaves behind when its retyping rolls back holds its old value again:
      always up to 64 bits, and at 128 exactly for values a signed 64-bit read carries. */
  lemma RollbackRestoresIff(s: SlotKind, v: int, charSigned: bool)
    requires !s.NoSlot? && !IsFloating(s) && v == Normalized(s, v, charSigned)
    ensures Normalized(s, As64(v), charSigned) == v <==> Width(s) <= 8 || CarriedBy64(s, v)
  {
    ReadBack64(s, v, charSigned);
  }

  /** A floating-point slot that rolls back holds its old bytes again exactly when they were the
      image of some whole number that is read off a block; a fraction is lost. */
  lemma RollbackRestoresFloatIff(s: SlotKind, block: seq<byte>, floats: Floats)
    requires IsFloating(s) && |block| == Width(s) && Lawful(floats)
    ensures floats.image(s, floats.whole(s, block)) == block
            <==> exists other :: |other| == Width(s) && block == floats.image(s, floats.whole(s, other))
  {
    if other :| |other| == Width(s) && block == floats.image(s, floats.whole(s, other)) {
      assert floats.whole(s, block) == floats.whole(s, other);
    }
  }

  /** A step and its opposite cancel in every slot but a bool's, where they do so from false just
      for a step of 0 or 1, and from true for any step but 1. */
  lemma StepsCancelIff(s: SlotKind, v: int, delta: int, charSigned: bool)
    requires !s.NoSlot? && !IsFloating(s) && v == Normalized(s, v, charSigned)
    ensures Normalized(s, Normalized(s, v + delta, charSigned) - delta, charSigned) == v
            <==> (s.BoolSlot? ==> if v == 0 then delta == 0 || delta == 1 else delta != 1)
  {
    if !s.BoolSlot? {
      var m, n := Pow256(Width(s)), Normalized(s, v + delta, charSigned);
      ConvertSpec(v + delta, m, IsUnsigned(s) || (s.CharSlot? && !charSigned));
      CongruentSum(n, v + delta, -delta, -delta, m);
      NormalizedModulo(s, n - delta, v, charSigned);
    }
  }

  /** A value that fits the new type is kept exactly; a negative one may read back as 64 bits and
      still turn into a large unsigned value. */
  lemma RetypedValueIffNotNegativeUnsigned(t: SlotKind, v: int, charSigned: bool)
    requires !t.NoSlot? && !IsFloating(t) && Fits(v, TWO_64, false)
    requires As64(Normalized(t, v, charSigned)) == v
    ensures Normalized(t, v, charSigned) == v <==> !(v < 0 && (t.U64? || t.U128?))
  {
    var n, m := Normalized(t, v, charSigned), Pow256(Width(t));
    PowersOf256();
    SmallOfWide(n);
    if !t.BoolSlot? { ConvertSpec(v, m, IsUnsigned(t) || (t.CharSlot? && !charSigned)); }
  }

  /** A constant of 2^64 in a 128-bit slot reads as 0 and is 0 after a rollback. */
  lemma RollbackCutsWideValue(charSigned: bool)
    ensures Normalized(I128, TWO_64, charSigned) == TWO_64
    ensures As64(TWO_64) == 0 && Normalized(I128, As64(TWO_64), charSigned) == 0
  {
    PowersOf256();
  }

  /** A constant -1 retyped to an unsigned 64-bit slot still reads as -1, and holds 2^64 - 1. */
  lemma RetypingTurnsMinusOne(charSigned: bool)
    ensures As64(Normalized(U64, -1, charSigned)) == -1
    ensures Normalized(U64, -1, charSigned) == TWO_64 - 1
  {
    PowersOf256();
  }
}
