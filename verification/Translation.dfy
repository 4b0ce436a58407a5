/** A record laid out after a vptr and bases, from `start`, is the record laid out from 0, moved. */
module Translation {
  import opened Alignment
  import opened RecordLayout
  import opened ReplayedLayout
  import opened Agreement
  import opened Placement
  import opened Windows
  import opened Units

  /** `r` with everything placed k bytes further on. */
  function Shift(r: Layout, k: nat): Layout {
    r.(offsets := Shifted(r.offsets, k), bits := MovedAll(r.bits, k), groups := MovedGroups(r.groups, k),
       size := r.size + k, unitOffset := if r.active then r.unitOffset + k else r.unitOffset)
  }

  predicate Divides(a: nat, k: int) {
    a == 0 || k % a == 0
  }

  /** The alignment, or under System V the window, that a bit-field's placement rounds to. */
  function BitGrain(cfg: Config, ty: FieldType, boundary: bool): nat {
    if cfg.microsoft then FieldAlign(cfg, ty) else if boundary then NaturalAlign(ty) else BitStorage(ty)
  }

  /** What declaration d's placement rounds to, apart from its own aligned(N). */
  function Grain(cfg: Config, d: Decl): nat {
    match d
    case Anon(agg) => AggAlign(cfg, agg)
    case Own(m, isBits, width, packed, _) =>
      var c := PackedConfig(cfg, packed);
      if isBits then BitGrain(c, m.ty, m.name == "" && width == 0) else FieldAlign(c, m.ty)
  }

  predicate StartSuits(cfg: Config, d: Decl, start: nat) {
    Divides(Grain(cfg, d), start) && (d.Own? ==> Divides(d.align, start))
  }

  ghost predicate AtRest(r: Layout) {
    !r.cfg.isUnion && (!r.active ==> r.unitOffset == 0) && Lists(r)
  }

  /** Where System V puts a bit-field's first bit, and whether its unit moves along by k bytes. */
  predicate UnitMoves(cfg: Config, bit: nat, storage: nat, width: nat, k: nat)
    requires storage != 0
  {
    SysVWindow(cfg, bit + 8 * k, storage, width) == SysVWindow(cfg, bit, storage, width) + k
  }

  /** Whether bit-field d, added to `r` under the packing of `c`, lands k bytes further on when
      everything before it does. */
  predicate BitsMove(r: Layout, c: Config, d: Decl, k: nat)
    requires d.Own? && d.isBits
  {
    var storage := BitStorage(d.m.ty);
    if d.m.name == "" && d.width == 0
    then (c.microsoft && !r.previousBits) || Divides(BitGrain(c, d.m.ty, true), k)
    else if c.microsoft then SharesUnit(r, storage, d.width) || Divides(FieldAlign(c, d.m.ty), k)
    else UnitMoves(c, SysVBit(c, CursorBit(r), storage * 8, d.width), storage, d.width, k)
  }

  /** The same of any declaration. */
  predicate Moves(r: Layout, d: Decl, k: nat) {
    match d
    case Anon(agg) => Divides(AggAlign(r.cfg, agg), k)
    case Own(m, isBits, _, packed, align) =>
      var c := PackedConfig(r.cfg, packed);
      Divides(align, k) && if isBits then BitsMove(r, c, d, k) else Divides(FieldAlign(c, m.ty), k)
  }

  // ----- rounding moves along exactly for multiples

  lemma AlignUpShiftIff(v: int, a: nat, k: int)
    requires a != 0
    ensures AlignUp(v + k, a) == AlignUp(v, a) + k <==> k % a == 0
  {
    if k % a == 0 {
      AlignUpShift(v, a, k);
    } else {
      AlignUpRounds(v, a);
      AlignUpRounds(v + k, a);
      if AlignUp(v + k, a) == AlignUp(v, a) + k {
        DifferenceOfMultiples(AlignUp(v + k, a), AlignUp(v, a), a);
      }
    }
  }

  lemma DifferenceOfMultiples(x: int, y: int, a: nat)
    requires a != 0 && x % a == 0 && y % a == 0
    ensures (x - y) % a == 0
  {
    var p, q := x / a, y / a;
    assert x == p * a && y == q * a;
    assert x - y == (p - q) * a;
    DivUnique(x - y, a, p - q, 0);
  }

  lemma ShiftWindow(bit: nat, storage: nat, k: nat)
    requires storage != 0 && k % storage == 0
    ensures var unit := storage * 8;
            && (bit + 8 * k) % unit == bit % unit && (8 * k) % unit == 0
            && (bit + 8 * k) / unit * storage == bit / unit * storage + k
  {
    var unit, m, q := storage * 8, k / storage, bit / (storage * 8);
    assert k == m * storage && 8 * k == m * unit;
    assert bit == q * unit + bit % unit;
    assert bit + 8 * k == (q + m) * unit + bit % unit;
    DivUnique(bit + 8 * k, unit, q + m, bit % unit);
    DivUnique(8 * k, unit, m, 0);
    assert (q + m) * storage == q * storage + k;
  }

  lemma ShiftSysV(cfg: Config, cursor: nat, storage: nat, width: nat, k: nat)
    requires storage != 0 && k % storage == 0
    ensures var unit := storage * 8;
            var bit := SysVBit(cfg, cursor, unit, width);
            && SysVBit(cfg, cursor + 8 * k, unit, width) == bit + 8 * k
            && SysVWindow(cfg, bit + 8 * k, storage, width) == SysVWindow(cfg, bit, storage, width) + k
  {
    var unit := storage * 8;
    var bit := SysVBit(cfg, cursor, unit, width);
    ShiftWindow(cursor, storage, k);
    ShiftWindow(bit, storage, k);
    AlignUpShift(cursor, unit, 8 * k);
    WindowBelow(bit, storage);
    WindowBelow(bit + 8 * k, storage);
  }

  /** Without straddling, units are multiples of their size: one moves along only by a multiple. */
  lemma UnitsApart(cfg: Config, b: nat, c: nat, storage: nat, width: nat, k: nat)
    requires storage != 0 && !Straddles(cfg)
    requires SysVWindow(cfg, c, storage, width) == SysVWindow(cfg, b, storage, width) + k
    ensures k % storage == 0
  {
    var p, q := c / (storage * 8), b / (storage * 8);
    DivUnique(p * storage, storage, p, 0);
    DivUnique(q * storage, storage, q, 0);
    DifferenceOfMultiples(p * storage, q * storage, storage);
  }

  /** A bit-field's place moves along by k bytes exactly when its unit does. */
  lemma SysVMovesIff(cfg: Config, cursor: nat, storage: nat, width: nat, k: nat)
    requires storage != 0
    ensures var unit := storage * 8;
            var bit, bit' := SysVBit(cfg, cursor, unit, width), SysVBit(cfg, cursor + 8 * k, unit, width);
            && (UnitMoves(cfg, bit, storage, width, k) ==> bit' == bit + 8 * k)
            && (SysVWindow(cfg, bit', storage, width) == SysVWindow(cfg, bit, storage, width) + k
                ==> UnitMoves(cfg, bit, storage, width, k))
  {
    var unit := storage * 8;
    var bit, bit' := SysVBit(cfg, cursor, unit, width), SysVBit(cfg, cursor + 8 * k, unit, width);
    if !Straddles(cfg) {
      if UnitMoves(cfg, bit, storage, width, k) { UnitsApart(cfg, bit, bit + 8 * k, storage, width, k); }
      if SysVWindow(cfg, bit', storage, width) == SysVWindow(cfg, bit, storage, width) + k {
        UnitsApart(cfg, bit, bit', storage, width, k);
      }
      hide SysVBit, SysVWindow;
      if k % storage == 0 { ShiftSysV(cfg, cursor, storage, width, k); }
    }
  }

  /** Where a plain member of alignment `fa` lands, its aligned(N) included. */
  function PlainOffset(isUnion: bool, size: nat, fa: nat, align: nat): int {
    if isUnion then 0 else if align == 0 then AlignUp(size, fa) else AlignUp(AlignUp(size, fa), align)
  }

  lemma PlainShiftIff(size: nat, fa: nat, align: nat, k: nat)
    requires IsPow2(fa) && IsPow2OrZero(align)
    ensures PlainOffset(false, size + k, fa, align) == PlainOffset(false, size, fa, align) + k
            <==> Divides(fa, k) && Divides(align, k)
  {
    AlignUpRounds(size, fa);
    AlignUpRounds(size + k, fa);
    AlignUpShiftIff(size, fa, k);
    hide AlignUp;
    if align == 0 {
    } else if align <= fa {
      Pow2Divides(align, fa);
      DividesTransitive(align, fa, AlignUp(size, fa));
      DividesTransitive(align, fa, AlignUp(size + k, fa));
      AlignUpFixed(AlignUp(size, fa), align);
      AlignUpFixed(AlignUp(size + k, fa), align);
      if k % fa == 0 { DividesTransitive(align, fa, k); }
    } else {
      Pow2Divides(fa, align);
      AlignUpTwice(size, fa, align);
      AlignUpTwice(size + k, fa, align);
      AlignUpShiftIff(size, align, k);
      if k % align == 0 { DividesTransitive(fa, align, k); }
    }
  }

  // ----- a declaration that moves along

  lemma ShiftOpenMicrosoft(r: Layout, ty: FieldType, width: nat, k: nat)
    requires AtRest(r) && r.cfg.microsoft && (SharesUnit(r, BitStorage(ty), width) || Divides(FieldAlign(r.cfg, ty), k))
    ensures OpenField(Shift(r, k), ty, width) == Shift(OpenField(r, ty, width), k)
  {
    if Divides(FieldAlign(r.cfg, ty), k) { AlignUpShift(r.size, FieldAlign(r.cfg, ty), k); }
    hide AlignUp, FieldAlign, BitStorage, Shifted, MovedAll, MovedGroups;
  }

  lemma ShiftOpenSysV(r: Layout, ty: FieldType, width: nat, k: nat)
    requires AtRest(r) && !r.cfg.microsoft
    requires UnitMoves(r.cfg, SysVBit(r.cfg, CursorBit(r), BitStorage(ty) * 8, width), BitStorage(ty), width, k)
    ensures OpenField(Shift(r, k), ty, width) == Shift(OpenField(r, ty, width), k)
  {
    assert CursorBit(Shift(r, k)) == CursorBit(r) + 8 * k;
    hide CursorBit, SysVBit, SysVWindow, OpenField, BitStorage, FieldAlign, Max, Shifted, MovedAll, MovedGroups;
    OpenSysV(r, ty, width);
    OpenSysV(Shift(r, k), ty, width);
    SysVMovesIff(r.cfg, CursorBit(r), BitStorage(ty), width, k);
  }

  lemma OpenRests(r: Layout, ty: FieldType, width: nat)
    ensures OpenField(r, ty, width).active && OpenField(r, ty, width).cfg == r.cfg
  {
    hide AlignUp, FieldAlign, BitStorage, SysVBit, SysVWindow, Max;
  }

  lemma ShiftAppend(r: Layout, m: Member, offset: int, info: BitField, k: nat)
    ensures Append(Shift(r, k), m, offset + k, Moved(info, k)) == Shift(Append(r, m, offset, info), k)
  {
    assert Shifted(r.offsets + [offset], k) == Shifted(r.offsets, k) + [offset + k];
    assert MovedAll(r.bits + [info], k) == MovedAll(r.bits, k) + [Moved(info, k)];
  }

  lemma ShiftBoundary(r: Layout, ty: FieldType, k: nat)
    requires AtRest(r) && ((r.cfg.microsoft && !r.previousBits) || Divides(BitGrain(r.cfg, ty, true), k))
    ensures AddBoundary(Shift(r, k), ty) == Shift(AddBoundary(r, ty), k)
  {
    if Divides(BitGrain(r.cfg, ty, true), k) { AlignUpShift(r.size, BitGrain(r.cfg, ty, true), k); }
    var q := AddBoundary(r, ty);
    ShiftAppend(q.(members := r.members, offsets := r.offsets, bits := r.bits), Member("", ty, 1, false),
                q.offsets[|r.offsets|], q.bits[|r.bits|], k);
    hide AlignUp, FieldAlign, NaturalAlign, Capped;
  }

  lemma ShiftField(r: Layout, name: string, ty: FieldType, width: nat, k: nat)
    requires AtRest(r) && OpenField(Shift(r, k), ty, width) == Shift(OpenField(r, ty, width), k)
    ensures AddNonzeroBits(Shift(r, k), name, ty, width) == Shift(AddNonzeroBits(r, name, ty, width), k)
  {
    OpenRests(r, ty, width);
    var o := OpenField(r, ty, width);
    hide OpenField;
    ShiftAppend(CloseField(o, ty, width), Member(name, ty, 1, false), o.unitOffset, FieldInfo(o, ty, width), k);
    assert CloseField(Shift(o, k), ty, width) == Shift(CloseField(o, ty, width), k);
  }

  lemma ShiftBits(r: Layout, d: Decl, k: nat)
    requires AtRest(r) && d.Own? && d.isBits && BitsMove(r, r.cfg, d, k)
    ensures AddBitField(Shift(r, k), d.m.name, d.m.ty, d.width) == Shift(AddBitField(r, d.m.name, d.m.ty, d.width), k)
  {
    hide AddBoundary, AddNonzeroBits, OpenField, UnitMoves, SharesUnit;
    if d.m.name == "" && d.width == 0 {
      ShiftBoundary(r, d.m.ty, k);
    } else {
      if r.cfg.microsoft { ShiftOpenMicrosoft(r, d.m.ty, d.width, k); } else { ShiftOpenSysV(r, d.m.ty, d.width, k); }
      ShiftField(r, d.m.name, d.m.ty, d.width, k);
    }
  }

  lemma ShiftMember(r: Layout, m: Member, k: nat)
    requires AtRest(r) && Divides(FieldAlign(r.cfg, m.ty), k)
    ensures AddMember(Shift(r, k), m) == Shift(AddMember(r, m), k)
  {
    var fa := FieldAlign(r.cfg, m.ty);
    AlignUpShift(r.size, fa, k);
    var q := AddMember(r, m);
    ShiftAppend(q.(members := r.members, offsets := r.offsets, bits := r.bits), m, AlignUp(r.size, fa), PLAIN, k);
  }

  lemma ShiftAlign(r: Layout, align: nat, k: nat)
    requires AtRest(r) && Divides(align, k)
    ensures ApplyMemberAlignment(Shift(r, k), align) == Shift(ApplyMemberAlignment(r, align), k)
  {
    if !AlignIgnored(r, align) {
      var last := |r.offsets| - 1;
      AlignUpShift(r.offsets[last], align, k);
      var at := AlignUp(r.offsets[last], align);
      assert Shifted(r.offsets[last := at], k) == Shifted(r.offsets, k)[last := at + k];
    }
  }

  lemma ShiftAnon(r: Layout, agg: Layout, k: nat)
    requires AtRest(r) && Divides(AggAlign(r.cfg, agg), k) && Lists(agg)
    ensures AddAnonymous(Shift(r, k), agg) == Shift(AddAnonymous(r, agg), k)
  {
    var fa := AggAlign(r.cfg, agg);
    AlignUpShift(r.size, fa, k);
    var base := AlignUp(r.size, fa);
    assert Shifted(r.offsets + Shifted(agg.offsets, base), k) == Shifted(r.offsets, k) + Shifted(agg.offsets, base + k);
    assert MovedAll(r.bits + MovedAll(agg.bits, base), k) == MovedAll(r.bits, k) + MovedAll(agg.bits, base + k);
    var g := Group(|r.members|, |agg.members|, agg, base);
    assert MovedGroups(r.groups + [g], k) == MovedGroups(r.groups, k) + [g.(offset := base + k)];
  }

  lemma ShiftOwn(r: Layout, d: Decl, k: nat)
    requires AtRest(r) && d.Own? && Moves(r, d, k)
    ensures AddOwn(Shift(r, k), d) == Shift(AddOwn(r, d), k)
  {
    hide AddBitField, AddMember, SysVBit, SysVWindow, BitStorage, FieldAlign, AlignUp;
    var c := UnderPack(r, d.packed);
    assert CursorBit(c) == CursorBit(r);
    if d.isBits { ShiftBits(c, d, k); } else { ShiftMember(c, d.m, k); }
    var a := if d.isBits then AddBitField(c, d.m.name, d.m.ty, d.width) else AddMember(c, d.m);
    assert Shift(a, k).(cfg := r.cfg) == Shift(a.(cfg := r.cfg), k);
  }

  /** Adding keeps a record at rest. */
  lemma AddRests(r: Layout, d: Decl)
    requires AtRest(r) && d.Own?
    ensures AtRest(AddMember(r, d.m)) && AtRest(AddBitField(r, d.m.name, d.m.ty, d.width))
  {
    hide AlignUp, FieldAlign, BitStorage, SysVBit, SysVWindow, Max, MemberBytes, NaturalAlign, Capped, CursorBit;
  }

  lemma OwnRests(r: Layout, d: Decl)
    requires AtRest(r) && d.Own?
    ensures AtRest(AddOwn(r, d))
  {
    AddRests(UnderPack(r, d.packed), d);
    AddGrows(UnderPack(r, d.packed), d);
    hide AddMember, AddBitField;
  }

  lemma StepRests(r: Layout, d: Decl)
    requires AtRest(r) && (d.Anon? ==> Lists(d.agg))
    ensures AtRest(Step(r, d))
  {
    if d.Own? { OwnRests(r, d); AlignKeepsShape(AddOwn(r, d), d.align); }
    hide AddOwn, AlignUp, AggAlign, ShiftKeys, ShiftSet;
  }

  lemma StepMoves(r: Layout, d: Decl, k: nat)
    requires AtRest(r) && Moves(r, d, k) && (d.Anon? ==> Lists(d.agg))
    ensures Step(Shift(r, k), d) == Shift(Step(r, d), k)
  {
    if d.Anon? {
      ShiftAnon(r, d.agg, k);
    } else {
      ShiftOwn(r, d, k);
      OwnRests(r, d);
      ShiftAlign(AddOwn(r, d), d.align, k);
    }
    hide AddOwn, AddAnonymous, ApplyMemberAlignment, Shift;
  }

  // ----- every start that suits all declarations

  lemma SuitsMoves(r: Layout, d: Decl, k: nat)
    requires StartSuits(r.cfg, d, k)
    ensures Moves(r, d, k)
  {
    if d.Own? && d.isBits && !r.cfg.microsoft {
      var c := PackedConfig(r.cfg, d.packed);
      ShiftSysV(c, CursorBit(r), BitStorage(d.m.ty), d.width, if k % BitStorage(d.m.ty) == 0 then k else 0);
    }
    hide SysVBit, SysVWindow, CursorBit, BitStorage, FieldAlign, NaturalAlign;
  }

  lemma {:induction false} FoldShift(r: Layout, ds: seq<Decl>, k: nat)
    requires AtRest(r) && forall d :: d in ds ==> StartSuits(r.cfg, d, k) && DeclFits(d)
    ensures Fold(Shift(r, k), ds) == Shift(Fold(r, ds), k) && AtRest(Fold(r, ds))
    decreases |ds|
  {
    hide Step, Shift, StartSuits, AtRest, Moves;
    if ds != [] {
      var d := ds[0];
      assert StartSuits(r.cfg, d, k);
      SuitsMoves(r, d, k);
      StepMoves(r, d, k);
      StepRests(r, d);
      StepKeepsConfig(r, d);
      FoldShift(Step(r, d), ds[1..], k);
    }
  }

  lemma MovedBack(r: Layout, k: nat)
    ensures var b: int := 0 - k;
            && Shifted(Shifted(r.offsets, k), b) == r.offsets
            && MovedAll(MovedAll(r.bits, k), b) == r.bits
            && MovedGroups(MovedGroups(r.groups, k), b) == r.groups
            && Shifted(r.offsets, 0) == r.offsets && MovedAll(r.bits, 0) == r.bits
            && MovedGroups(r.groups, 0) == r.groups
  {}

  /** relayout(start) yields the relative offsets, bit placement, size, alignment and cursor of
      relayout(0) for every start that suits all the recorded declarations. */
  lemma RelayoutTranslates(s: Layout, start: nat)
    requires WellFormed(s) && !s.cfg.isUnion
    requires forall d :: d in Decls(s, 0, 0) ==> StartSuits(s.cfg, d, start)
    ensures RelayoutFrom(s, start) == Relayout(s)
  {
    var e := Empty(s.cfg).(size := 0);
    DeclsFit(s, 0, 0);
    assert Shift(e, start) == Empty(s.cfg).(size := start);
    FoldShift(e, Decls(s, 0, 0), start);
    RebasedShift(s, start);
  }

  lemma RebasedShift(s: Layout, start: nat)
    requires AtRest(Replay(s, 0)) && Replay(s, start) == Shift(Replay(s, 0), start)
    ensures RelayoutFrom(s, start) == RelayoutFrom(s, 0)
  {
    hide Replay;
    MovedBack(Replay(s, 0), start);
  }

  /** Where a window does not move along: a packed `int a : 4` aligned to 1 and begun at byte 1 keeps its bit,
      but is read through the unit that starts one byte before the block. */
  lemma WideWindowReachesBefore()
    ensures var int32 := FieldType(4, 4, false, false, false);
            var packed := Config(false, 1, 0, false, false);
            var s := Run(Empty(packed), [OpBits("a", int32, 4)]);
            && Replayable(Empty(packed), [OpBits("a", int32, 4)]) && OwnMemberAlignment(s) == 1
            && Relayout(s) == s && s.bits[0].storageOffset == 0 && s.bits[0].bitOffset == 0
            && RelayoutFrom(s, 1).bits[0].storageOffset == -1 && RelayoutFrom(s, 1).bits[0].bitOffset == 8
  {
    var int32 := FieldType(4, 4, false, false, false);
    var packed := Config(false, 1, 0, false, false);
    var op := OpBits("a", int32, 4);
    var e := Empty(packed);
    var s := Run(e, [op]);
    assert [op][1..] == [];
    assert s == AddBitField(e, "a", int32, 4) by { assert Run(e, [op]) == Run(Apply(e, op), []); }
    IncrementalIsBatch(packed, [op]);
    OwnMemberAlignmentIsReplayed(packed, [op]);
    PackedNibble(0);
    PackedNibble(1);
    hide Decls, Fold, Run, Replayable, AddBitField;
    assert e.(size := 0) == e;
    OneDecl(s, 0);
    OneDecl(s, 1);
  }

  lemma PackedNibble(start: nat)
    requires start <= 1
    ensures var int32 := FieldType(4, 4, false, false, false);
            var packed := Config(false, 1, 0, false, false);
            var e, d := Empty(packed).(size := start), Own(Member("a", int32, 1, false), true, 4, false, 0);
            var q := AddBitField(e, "a", int32, 4);
            && q.members == [d.m] && q.groups == [] && q.offsets == [0] && q.maxAlign == 1
            && q.explicitAlign == map[] && q.packed == {} && q.tagAlign == 0
            && q.bits == [BitField(true, 0, 4, 8 * start, 4, false, false)]
            && Step(e, d) == q
  {}

  lemma OneDecl(s: Layout, start: nat)
    requires |s.members| == |s.bits| == 1 && s.groups == []
    ensures Replay(s, start) == Step(Empty(s.cfg).(size := start), OwnAt(s, 0))
  {
    var e, d := Empty(s.cfg).(size := start), OwnAt(s, 0);
    DeclsOwn(s, 0, 0);
    DeclsDone(s, 1, 0);
    assert [d] + [] == [d] && [d][1..] == [];
    hide Decls, Step;
    assert Fold(e, [d]) == Fold(Step(e, d), []);
  }
}
