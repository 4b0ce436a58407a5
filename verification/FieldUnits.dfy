/** Which storage unit a bit-field gets and where it stands in it, read off its type's size. */
module FieldUnits {
  import opened Alignment
  import opened RecordLayout
  import opened ReplayedLayout
  import opened Agreement
  import opened Placement
  import opened Windows
  import opened DeclaredTypes

  // ----- storage units

  /** A bit-field's unit is its type's size, but 4 bytes for a type without one and never over 8. */
  predicate UnitOf(ty: FieldType, unit: nat) {
    (1 <= ty.size <= 8 ==> unit == ty.size) && (ty.size == 0 ==> unit == 4) && (ty.size > 8 ==> unit == 8)
  }

  /** Every bit-field is recorded with its type's unit, its own width, the signedness a bit-field of
      the type gets (a `:0` the type's own) and the record's storage order. */
  lemma RecordedAsItsType(r: Layout, name: string, ty: FieldType, width: nat)
    ensures var q := AddBitField(r, name, ty, width);
            && |q.bits| == |r.bits| + 1 && |q.offsets| == |r.offsets| + 1
            && var info := q.bits[|r.bits|];
               && info.isBitField && UnitOf(ty, info.storageSize) && info.bitWidth == width
               && info.reverse == r.cfg.reverse && q.offsets[|r.offsets|] == info.storageOffset
               && info.isUnsigned == if name == "" && width == 0 then ty.isUnsigned else ty.bitFieldUnsigned
  {
    hide AlignUp, FieldAlign, SysVBit, SysVWindow, CursorBit, Capped;
  }

  /** A type whose bit-fields have a window of just its size. */
  predicate Whole(ty: FieldType) {
    ty.size in {1, 2, 4, 8}
  }

  /** The bit a field starts at. */
  function StartBit(info: BitField): int {
    8 * info.storageOffset
    + if info.reverse then 8 * info.storageSize - info.bitOffset - info.bitWidth else info.bitOffset
  }

  /** System V without straddling: the smallest bit at or after the cursor from which the field stays
      in one window of its type's size, recorded in that window; the record is aligned for the type. */
  lemma LeastBitInTypesWindow(r: Layout, name: string, ty: FieldType, width: nat, a: nat)
    requires !r.cfg.microsoft && (r.cfg.pack == 0 || r.cfg.reverse) && Whole(ty) && 0 < width <= 8 * ty.size
    requires SmallerOf(ty.align, r.cfg.pack, a)
    ensures var q, unit := AddBitField(r, name, ty, width), 8 * ty.size;
            var info := q.bits[|r.bits|];
            && info.storageSize == ty.size && info.storageOffset % ty.size == 0
            && 8 * info.storageOffset <= StartBit(info) && StartBit(info) + width <= 8 * info.storageOffset + unit
            && CursorBit(r) <= StartBit(info) && !Crosses(StartBit(info), width, unit)
            && (forall bit :: CursorBit(r) <= bit < StartBit(info) ==> Crosses(bit, width, unit))
            && q.maxAlign == Max(r.maxAlign, a)
  {
    LeastLegalBit(r, name, ty, width);
    FieldAlignIsSmaller(r.cfg, ty);
    hide Crosses, CursorBit, AlignUp, SysVBit, SysVWindow, FieldAlign;
  }

  /** System V with straddling: the very next bit, recorded in the type's window where the field
      stays in it and from the byte of its first bit where not. */
  lemma NextBitWhenStraddling(r: Layout, name: string, ty: FieldType, width: nat)
    requires !r.cfg.microsoft && r.cfg.pack != 0 && !r.cfg.reverse && Whole(ty) && 0 < width
    ensures var info := AddBitField(r, name, ty, width).bits[|r.bits|];
            && StartBit(info) == CursorBit(r) && info.storageSize == ty.size
            && if Crosses(CursorBit(r), width, 8 * ty.size) then 0 <= info.bitOffset < 8
               else info.storageOffset % ty.size == 0 && 0 <= info.bitOffset && info.bitOffset + width <= 8 * ty.size
  {
    var e := if r.cfg.isUnion then EndRun(r) else r;
    var bit := CursorBit(r);
    assert CursorBit(e) == bit;
    WindowBelow(bit, ty.size);
    DivUnique(bit / (ty.size * 8) * ty.size, ty.size, bit / (ty.size * 8), 0);
    hide CursorBit, FieldAlign;
  }

  /** A System V field takes just the bytes its bits reach into. */
  lemma FieldTakesItsBytes(r: Layout, name: string, ty: FieldType, width: nat)
    requires !r.cfg.microsoft && 0 < width
    ensures var q := AddBitField(r, name, ty, width);
            var end := StartBit(q.bits[|r.bits|]) + width;
            && q.size >= r.size && end <= 8 * q.size && (q.size > r.size ==> 8 * (q.size - 1) < end)
            && q.previousBits && (q.active <==> !r.cfg.isUnion)
  {
    hide AlignUp, FieldAlign, SysVBit, SysVWindow, CursorBit;
  }

  /** Where the System V cursor stands: behind the bits of the field just added, at the record's end
      after anything else, and at 0 in a union. */
  lemma CursorFollows(r: Layout, name: string, ty: FieldType, width: nat, m: Member)
    requires !r.cfg.microsoft
    ensures var q := AddBitField(r, name, ty, width);
            CursorBit(q) == if r.cfg.isUnion then 0
                            else if name == "" && width == 0 then 8 * q.size
                            else StartBit(q.bits[|r.bits|]) + width
    ensures CursorBit(AddMember(r, m)) == if r.cfg.isUnion then 0 else 8 * AddMember(r, m).size
  {
    hide AlignUp, FieldAlign, SysVBit, SysVWindow, Capped, MemberBytes;
  }

  /** Microsoft: a field joins the open unit exactly while that is of its type's size and has room;
      else it opens one of its type's size on the first byte that suits the type under the packing.
      The unit stays open while it has room. */
  lemma MicrosoftUnitOfItsType(r: Layout, name: string, ty: FieldType, width: nat, a: nat)
    requires r.cfg.microsoft && CursorInside(r) && Whole(ty) && 0 < width <= 8 * ty.size
    requires SmallerOf(ty.align, r.cfg.pack, a)
    ensures var q := AddBitField(r, name, ty, width);
            var info := q.bits[|r.bits|];
            var joins := !r.cfg.isUnion && r.active && r.unitSize == ty.size && r.nextBit + width <= 8 * ty.size;
            var start := StartBit(info) - 8 * info.storageOffset;
            && info.storageSize == ty.size && info.storageOffset + ty.size <= q.size
            && (joins ==> info.storageOffset == r.unitOffset && start == r.nextBit
                          && q.size == r.size && q.maxAlign == r.maxAlign)
            && (!joins ==> start == 0 && q.maxAlign == Max(r.maxAlign, a)
                           && if r.cfg.isUnion then info.storageOffset == 0
                              else FirstAligned(r.size, a, info.storageOffset)
                                   && q.size == info.storageOffset + ty.size)
            && (q.active <==> !r.cfg.isUnion && start + width < 8 * ty.size)
            && (q.active ==> q.unitOffset == info.storageOffset && q.unitSize == ty.size && q.nextBit == start + width)
  {
    MicrosoftUnit(r, name, ty, width);
    FieldAlignIsSmaller(r.cfg, ty);
    hide FirstAligned, AlignUp, FieldAlign;
  }

  /** A `:0` sits on the boundary it makes: System V that of its type's own alignment whatever the
      packing; Microsoft, right after a bit-field, that of the packed alignment, and then the record
      is aligned for the type as far as #pragma pack alone lets it. */
  lemma BoundaryOfItsType(r: Layout, ty: FieldType, a: nat, b: nat)
    requires SmallerOf(ty.align, if r.cfg.microsoft then r.cfg.pack else 0, a)
    requires SmallerOf(ty.align, r.cfg.pragmaPack, b)
    ensures var q := AddBitField(r, "", ty, 0);
            var info := q.bits[|r.bits|];
            var acts := !r.cfg.isUnion && (!r.cfg.microsoft || r.previousBits);
            && (if acts then FirstAligned(r.size, a, q.size) else q.size == r.size)
            && q.maxAlign == (if acts && r.cfg.microsoft then Max(r.maxAlign, b) else r.maxAlign)
            && info.storageOffset == (if r.cfg.isUnion then 0 else q.size) && info.bitOffset == 0
            && !q.active && !q.previousBits
  {
    FieldAlignIsSmaller(r.cfg, ty);
    AlignUpIsFirst(r.size, a);
    hide AlignUp, FirstAligned;
  }

  /** In reverse storage order a field's bits are numbered from the other end of its unit: its number,
      its place counted forward from the cursor and its width make up the unit. */
  lemma ReversedBitNumber(r: Layout, name: string, ty: FieldType, width: nat)
    requires r.cfg.reverse && 0 < width
    ensures var at, info := OpenField(r, ty, width), AddBitField(r, name, ty, width).bits[|r.bits|];
            && info.bitOffset + at.nextBit + width == 8 * info.storageSize
            && info.storageOffset == at.unitOffset && StartBit(info) == 8 * at.unitOffset + at.nextBit
  {
    hide AlignUp, FieldAlign, BitStorage, CursorBit, SysVBit, SysVWindow;
  }

  /** Where no field straddles, the order changes nothing but that number. */
  lemma OrderMirrors(r: Layout, name: string, ty: FieldType, width: nat)
    requires (r.cfg.microsoft || r.cfg.pack == 0) && 0 < width
    ensures var f := AddBitField(r.(cfg := r.cfg.(reverse := false)), name, ty, width).bits[|r.bits|];
            var v := AddBitField(r.(cfg := r.cfg.(reverse := true)), name, ty, width).bits[|r.bits|];
            && f.bitOffset + v.bitOffset + width == 8 * f.storageSize
            && v == f.(bitOffset := v.bitOffset, reverse := true) && !f.reverse
  {
    OpensAlike(r.(cfg := r.cfg.(reverse := false)), ty, width);
    hide OpenField, BitStorage;
  }

  lemma OpensAlike(r: Layout, ty: FieldType, width: nat)
    requires (r.cfg.microsoft || r.cfg.pack == 0) && !r.cfg.reverse
    ensures var cfg := r.cfg.(reverse := true);
            OpenField(r.(cfg := cfg), ty, width) == OpenField(r, ty, width).(cfg := cfg)
    ensures OpenField(r, ty, width).cfg == r.cfg
  {
    hide AlignUp, BitStorage;
    var v := r.(cfg := r.cfg.(reverse := true));
    assert CursorBit(if r.cfg.isUnion then EndRun(v) else v) == CursorBit(if r.cfg.isUnion then EndRun(r) else r);
  }

  /** Flipping a recorded field does the same; a field already in the order asked for stays. */
  lemma FlipMirrors(info: BitField, reverse: bool)
    requires info.isBitField
    ensures var f := Flipped(info, reverse);
            && f == info.(bitOffset := f.bitOffset, reverse := reverse)
            && if info.reverse == reverse then f == info
               else f.bitOffset + info.bitOffset + info.bitWidth == 8 * info.storageSize
  {}

  // ----- whole units

  /** Whether the rules promise member i its whole unit, read off its type: any Microsoft bit-field,
      and a System V one in an unpacked record, itself unpacked, whose type's alignment is a multiple
      of its size. A flattened member is promised it by the aggregate that declared it. */
  ghost predicate UnitPromised(s: Layout, i: nat)
    decreases s
  {
    && i < |s.members| && i < |s.bits| && Whole(s.members[i].ty)
    && (OwnMember(s, i) ==>
          var ty := s.members[i].ty;
          && s.bits[i].isBitField && s.bits[i].bitWidth > 0
          && (s.cfg.microsoft
              || (s.cfg.pack == 0 && i !in s.packed && ty.align > 0 && ty.align % ty.size == 0)
              || (s.cfg.pack == 0 && i !in s.packed && ty.size == 1)))
    && forall g :: 0 <= g < |s.groups| && InGroup(s, g, i) ==> UnitPromised(s.groups[g].agg, i - s.groups[g].first)
  }

  lemma {:induction false} UnitIsWindow(s: Layout, i: nat)
    requires UnitPromised(s, i)
    ensures WindowPromised(s, i)
    decreases s
  {
    hide OwnMember;
    forall g | 0 <= g < |s.groups| && InGroup(s, g, i)
      ensures WindowPromised(s.groups[g].agg, i - s.groups[g].first)
    {
      UnitIsWindow(s.groups[g].agg, i - s.groups[g].first);
    }
  }

  /** At any depth the whole unit of the type's size lies in the completed record. */
  lemma WholeUnitStaysInside(b: Body, i: nat)
    requires Replayable(Empty(b.cfg), b.ops) && LegalBody(b) && UnitPromised(Build(b), i)
    ensures var s := Build(b);
            && i < |s.members| && i < |s.bits| && s.bits[i].storageOffset >= 0
            && s.bits[i].storageSize == s.members[i].ty.size
            && s.bits[i].storageOffset + s.members[i].ty.size <= s.size
            && (OwnMember(s, i) ==> s.cfg.microsoft || s.bits[i].storageOffset % s.members[i].ty.size == 0)
  {
    hide Build, Replayable, LegalBody, OwnMember, WindowPromised;
    UnitIsWindow(Build(b), i);
    AccessStaysInside(b, i);
  }
}
