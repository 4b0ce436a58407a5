/** The record type itself: fields updated in place, one method per layout operation. */
module StructLayout {
  import opened Alignment
  import opened RecordLayout
  import opened ReplayedLayout
  import opened Agreement
  import opened DeclaredTypes
  import opened FieldUnits
  import opened Attributes

  class DataDefStruct {
    /** The target's bit-field ABI, fixed for a whole run. */
    const microsoft: bool

    var pack: nat
    var pragmaPack: nat
    var unionLayout: bool
    var reverseScalarStorage: bool

    var members: seq<Member>
    var memberOffsets: seq<int>
    var memberBitfields: seq<BitField>
    var anonymousAggregates: seq<Group>
    var memberExplicitAlign: map<nat, nat>
    var memberPacked: set<nat>

    var size: nat
    var maxAlign: nat
    var tagExplicitAlign: nat

    var bitfieldActive: bool
    var bitfieldUnitOffset: nat
    var bitfieldUnitSize: nat
    var bitfieldNextBit: nat
    var previousWasNonzeroBitfield: bool

    function Configuration(): Config
      reads this
    {
      Config(microsoft, pack, pragmaPack, unionLayout, reverseScalarStorage)
    }

    function State(): Layout
      reads this
    {
      Layout(Configuration(), members, memberOffsets, memberBitfields, anonymousAggregates,
             memberExplicitAlign, memberPacked, size, maxAlign, tagExplicitAlign,
             bitfieldActive, bitfieldUnitOffset, bitfieldUnitSize, bitfieldNextBit, previousWasNonzeroBitfield)
    }

    /** The layout is what a replay of the recorded members would build. */
    ghost predicate Valid()
      reads this
    {
      Consistent(State())
    }

    constructor (microsoft: bool)
      ensures State() == Empty(Config(microsoft, 0, 0, false, false)) && this.microsoft == microsoft
      ensures Valid()
    {
      EmptyConsistent(Config(microsoft, 0, 0, false, false));
      this.microsoft := microsoft;
      pack, pragmaPack, unionLayout, reverseScalarStorage := 0, 0, false, false;
      members, memberOffsets, memberBitfields, anonymousAggregates := [], [], [], [];
      memberExplicitAlign, memberPacked := map[], {};
      size, maxAlign, tagExplicitAlign := 0, 1, 0;
      bitfieldActive, bitfieldUnitOffset, bitfieldUnitSize, bitfieldNextBit := false, 0, 0, 0;
      previousWasNonzeroBitfield := false;
    }

    method EndBitFieldRun()
      modifies `bitfieldActive, `bitfieldUnitOffset, `bitfieldUnitSize, `bitfieldNextBit
      ensures State() == EndRun(old(State()))
    {
      bitfieldActive := false;
      bitfieldUnitOffset := 0;
      bitfieldUnitSize := 0;
      bitfieldNextBit := 0;
    }

    method AppendMember(m: Member, offset: int, info: BitField)
      modifies `members, `memberOffsets, `memberBitfields
      ensures State() == Append(old(State()), m, offset, info)
    {
      members := members + [m];
      memberOffsets := memberOffsets + [offset];
      memberBitfields := memberBitfields + [info];
    }

    method RaiseAlignment(align: nat)
      modifies `maxAlign
      ensures maxAlign == Max(old(maxAlign), align)
    {
      if align > maxAlign { maxAlign := align; }
    }

    method RaiseSize(bytes: nat)
      modifies `size
      ensures size == Max(old(size), bytes)
    {
      if bytes > size { size := bytes; }
    }

    method AddMember(m: Member)
      modifies this
      ensures State() == RecordLayout.AddMember(old(State()), m)
      ensures |memberOffsets| == |old(memberOffsets)| + 1
      ensures m.ty.size > 0 && !m.runtimeSized && !unionLayout ==>
                size == memberOffsets[|memberOffsets| - 1] + m.ty.size * m.count
      ensures old(Valid()) ==> Valid()
    {
      hide AlignUp, MemberBytes, FieldAlign, Max, RecordLayout.AddMember, Consistent;
      MemberKept(State(), m);
      SizedMember(State(), m);
      MemberAdded(State(), m);
      EndBitFieldRun();
      previousWasNonzeroBitfield := false;
      var fa := FieldAlign(Configuration(), m.ty);
      if unionLayout {
        RaiseAlignment(fa);
        AppendMember(m, 0, PLAIN);
        RaiseSize(MemberBytes(m));
        return;
      }
      PlaceMember(m, fa);
    }

    /** Pads to the member's alignment and places it there. */
    method PlaceMember(m: Member, fa: nat)
      modifies this
      ensures var s, at := old(State()), AlignUp(old(size), fa);
              State() == Append(s, m, at, PLAIN).(maxAlign := Max(s.maxAlign, fa), size := at + MemberBytes(m))
    {
      hide AlignUp, MemberBytes, Max;
      size := AlignUp(size, fa);
      RaiseAlignment(fa);
      AppendMember(m, size, PLAIN);
      size := size + MemberBytes(m);
    }

    static lemma MemberKept(s: Layout, m: Member)
      ensures Consistent(s) ==> Consistent(RecordLayout.AddMember(s, m))
    {
      if Consistent(s) { AddMemberKeeps(s, m); }
    }

    static lemma SizedMember(s: Layout, m: Member)
      ensures var q := RecordLayout.AddMember(s, m);
              && |q.offsets| == |s.offsets| + 1
              && (m.ty.size > 0 && !m.runtimeSized && !s.cfg.isUnion ==>
                    q.size == q.offsets[|s.offsets|] + m.ty.size * m.count)
    {
      if m.ty.size > 0 && !m.runtimeSized && m.count > 0 { ArrayTakesEveryElement(s, m, m, 0); }
      hide AlignUp, FieldAlign;
    }

    static lemma MemberAdded(s: Layout, m: Member)
      ensures var fa, e := FieldAlign(s.cfg, m.ty), EndRun(s).(previousBits := false);
              var at := if s.cfg.isUnion then 0 else AlignUp(s.size, fa);
              RecordLayout.AddMember(s, m) ==
              Append(e, m, at, PLAIN).(
                maxAlign := Max(s.maxAlign, fa),
                size := (if s.cfg.isUnion then Max(s.size, MemberBytes(m)) else at + MemberBytes(m)))
    {}

    /** Microsoft: adjacent fields share a unit while their storage sizes agree and they fit. */
    method OpenUnit(ty: FieldType, width: nat)
      requires microsoft && (unionLayout ==> State() == EndRun(State()))
      modifies this
      ensures State() == OpenField(old(State()), ty, width)
    {
      hide AlignUp, FieldAlign, BitStorage, Max, OpenField;
      MicrosoftOpens(State(), ty, width);
      var storageSize := BitStorage(ty);
      if !bitfieldActive || bitfieldUnitSize != storageSize || bitfieldNextBit + width > storageSize * 8 {
        var fa := FieldAlign(Configuration(), ty);
        var start := if unionLayout then 0 else AlignUp(size, fa);
        RaiseAlignment(fa);
        StartUnit(start, storageSize, 0);
        RaiseSize(start + storageSize);
      }
    }

    method StartUnit(offset: nat, storageSize: nat, bit: nat)
      modifies `bitfieldActive, `bitfieldUnitOffset, `bitfieldUnitSize, `bitfieldNextBit
      ensures State() == old(State()).(active := true, unitOffset := offset, unitSize := storageSize, nextBit := bit)
    {
      bitfieldActive := true;
      bitfieldUnitOffset := offset;
      bitfieldUnitSize := storageSize;
      bitfieldNextBit := bit;
    }

    static lemma MicrosoftOpens(s: Layout, ty: FieldType, width: nat)
      requires s.cfg.microsoft && (s.cfg.isUnion ==> s == EndRun(s))
      ensures var fa, storage := FieldAlign(s.cfg, ty), BitStorage(ty);
              var start := if s.cfg.isUnion then 0 else AlignUp(s.size, fa);
              OpenField(s, ty, width) ==
                if !s.active || s.unitSize != storage || s.nextBit + width > storage * 8
                then s.(maxAlign := Max(s.maxAlign, fa), active := true, unitOffset := start,
                        unitSize := storage, nextBit := 0, size := Max(s.size, start + storage))
                else s
    {}

    /** System V: the next free bit, moved on only if the field would cross its type's window. */
    method OpenWindow(ty: FieldType, width: nat)
      requires !microsoft && (unionLayout ==> State() == EndRun(State()))
      modifies this
      ensures State() == OpenField(old(State()), ty, width)
    {
      SystemVOpens(State(), ty, width);
      var storageSize := BitStorage(ty);
      var storageBits := storageSize * 8;
      var nextBit := if unionLayout then 0
                     else if bitfieldActive then bitfieldUnitOffset * 8 + bitfieldNextBit
                     else size * 8;
      assert nextBit == CursorBit(State());
      var straddle := pack != 0 && !reverseScalarStorage;
      if !straddle && nextBit % storageBits + width > storageBits {
        nextBit := AlignUp(nextBit, storageBits);
      }
      WindowBelow(nextBit, storageSize);
      var windowOffset := if straddle && nextBit % storageBits + width > storageBits
                          then nextBit / 8 else nextBit / storageBits * storageSize;
      assert nextBit == SysVBit(Configuration(), CursorBit(State()), storageBits, width);
      assert windowOffset == SysVWindow(Configuration(), nextBit, storageSize, width);
      hide SysVBit, SysVWindow, FieldAlign, CursorBit, AlignUp, Max, BitStorage, Straddles, OpenField;
      RaiseAlignment(FieldAlign(Configuration(), ty));
      StartUnit(windowOffset, storageSize, nextBit - windowOffset * 8);
    }

    static lemma SystemVOpens(s: Layout, ty: FieldType, width: nat)
      requires !s.cfg.microsoft && (s.cfg.isUnion ==> s == EndRun(s))
      ensures var storage := BitStorage(ty);
              var bit := SysVBit(s.cfg, CursorBit(s), storage * 8, width);
              var window := SysVWindow(s.cfg, bit, storage, width);
              && window * 8 <= bit
              && OpenField(s, ty, width) == s.(maxAlign := Max(s.maxAlign, FieldAlign(s.cfg, ty)), active := true,
                   unitOffset := window, unitSize := storage, nextBit := bit - window * 8)
    {}

    /** Moves the bit cursor to the first bit of a new field of `width` bits. */
    method PlaceBitField(ty: FieldType, width: nat)
      modifies this
      ensures State() == OpenField(old(State()), ty, width)
    {
      ghost var s := State();
      if unionLayout {
        EndBitFieldRun();
        UnionOpens(s, ty, width);
      }
      hide OpenField;
      if microsoft { OpenUnit(ty, width); } else { OpenWindow(ty, width); }
    }

    /** Every union member starts a fresh run. */
    static lemma UnionOpens(s: Layout, ty: FieldType, width: nat)
      requires s.cfg.isUnion
      ensures OpenField(EndRun(s), ty, width) == OpenField(s, ty, width)
    {}

    method AllocateBitField(ty: FieldType, width: nat) returns (info: BitField)
      modifies this
      ensures var at := OpenField(old(State()), ty, width);
              info == FieldInfo(at, ty, width) && State() == CloseField(at, ty, width)
      ensures UnitOf(ty, info.storageSize)
    {
      RecordedAsItsType(State(), "", ty, 0);
      PlaceBitField(ty, width);
      hide OpenField, BitStorage;
      var storageSize := BitStorage(ty);
      info := BitField(true, bitfieldUnitOffset, storageSize,
                       if reverseScalarStorage then storageSize * 8 - bitfieldNextBit - width else bitfieldNextBit,
                       width, ty.bitFieldUnsigned, reverseScalarStorage);
      TakeBits(ty, width);
    }

    /** Takes the open field's bits; System V counts only the bytes they occupy. */
    method TakeBits(ty: FieldType, width: nat)
      modifies `bitfieldActive, `bitfieldUnitOffset, `bitfieldUnitSize, `bitfieldNextBit,
               `previousWasNonzeroBitfield, `size
      ensures State() == CloseField(old(State()), ty, width)
    {
      hide BitStorage, Max;
      bitfieldNextBit := bitfieldNextBit + width;
      RaiseSize(bitfieldUnitOffset + (bitfieldNextBit + 7) / 8);
      previousWasNonzeroBitfield := true;
      if unionLayout || (microsoft && bitfieldNextBit >= BitStorage(ty) * 8) { EndBitFieldRun(); }
    }

    method AddBitField(name: string, ty: FieldType, width: nat)
      modifies this
      ensures State() == RecordLayout.AddBitField(old(State()), name, ty, width)
      ensures old(Valid()) ==> Valid()
    {
      hide Consistent;
      if Valid() { AddBitFieldKeeps(State(), name, ty, width); }
      if name == "" {
        AddUnnamedBitField(ty, width);
        return;
      }
      OpenedAt(State(), ty, width);
      hide OpenField;
      var info := AllocateBitField(ty, width);
      AppendMember(Member(name, ty, 1, false), info.storageOffset, info);
    }

    method AddUnnamedBitField(ty: FieldType, width: nat)
      modifies this
      ensures State() == RecordLayout.AddBitField(old(State()), "", ty, width)
      ensures old(Valid()) ==> Valid()
    {
      hide OpenField, AddBoundary, Consistent;
      if Valid() { AddBitFieldKeeps(State(), "", ty, width); }
      var info: BitField;
      if width == 0 {
        info := AlignToBoundary(ty);
      } else {
        OpenedAt(State(), ty, width);
        info := AllocateBitField(ty, width);
      }
      AppendMember(Member("", ty, 1, false), info.storageOffset, info);
      previousWasNonzeroBitfield := width != 0;
      assert width == 0 ==> State() == AddBoundary(old(State()), ty);
    }

    /** `:0` moves the next member to a boundary of its type; Microsoft only after a bit-field. */
    method AlignToBoundary(ty: FieldType) returns (info: BitField)
      modifies `bitfieldActive, `bitfieldUnitOffset, `bitfieldUnitSize, `bitfieldNextBit, `size, `maxAlign
      ensures AddBoundary(old(State()), ty)
           == Append(State().(previousBits := false), Member("", ty, 1, false), info.storageOffset, info)
    {
      hide AlignUp, FieldAlign, BitStorage, NaturalAlign, Capped, Max;
      EndBitFieldRun();
      info := BitField(true, 0, BitStorage(ty), 0, 0, ty.isUnsigned, reverseScalarStorage);
      if !unionLayout {
        var fa := if microsoft then FieldAlign(Configuration(), ty) else NaturalAlign(ty);
        if !microsoft || previousWasNonzeroBitfield {
          size := AlignUp(size, fa);
          var ra := Capped(NaturalAlign(ty), pragmaPack);
          if microsoft { RaiseAlignment(ra); }
        }
        info := info.(storageOffset := size);
      }
    }

    static lemma OpenedAt(s: Layout, ty: FieldType, width: nat)
      ensures var at := OpenField(s, ty, width);
              at.members == s.members && at.offsets == s.offsets && at.bits == s.bits
    {}

    method AddAnonymousAggregate(agg: Layout)
      requires |agg.offsets| == |agg.members| && |agg.bits| == |agg.members|
      modifies this
      ensures State() == AddAnonymous(old(State()), agg)
      ensures old(Valid()) && Carried(agg) ==> Valid()
    {
      hide AlignUp, AggAlign, Max, Shifted, MovedAll, ShiftKeys, ShiftSet, AddAnonymous, EndRun;
      hide Consistent, Carried, Lists;
      AnonymousKept(State(), agg);
      AnonymousAdded(State(), agg);
      var firstMember := |members|;
      var baseOffset := StartGroup(agg);
      FlattenMembers(agg, baseOffset);
      CloseGroup(agg, firstMember, baseOffset);
    }

    static lemma AnonymousKept(s: Layout, agg: Layout)
      ensures Consistent(s) && Carried(agg) ==> Consistent(AddAnonymous(s, agg))
    {
      if Consistent(s) && Carried(agg) { AddAnonymousKeeps(s, agg); }
    }

    method CloseGroup(agg: Layout, firstMember: nat, baseOffset: nat)
      modifies `size, `anonymousAggregates
      ensures State() == old(State()).(
                size := if unionLayout then Max(old(size), baseOffset + agg.size) else baseOffset + agg.size,
                groups := if |agg.members| > 0
                          then old(anonymousAggregates) + [Group(firstMember, |agg.members|, agg, baseOffset)]
                          else old(anonymousAggregates))
    {
      hide Max;
      if unionLayout { RaiseSize(baseOffset + agg.size); } else { size := baseOffset + agg.size; }
      if |agg.members| > 0 {
        anonymousAggregates := anonymousAggregates + [Group(firstMember, |agg.members|, agg, baseOffset)];
      }
    }

    method StartGroup(agg: Layout) returns (baseOffset: nat)
      modifies `bitfieldActive, `bitfieldUnitOffset, `bitfieldUnitSize, `bitfieldNextBit,
               `previousWasNonzeroBitfield, `maxAlign
      ensures baseOffset == if unionLayout then 0 else AlignUp(size, AggAlign(Configuration(), agg))
      ensures State() == EndRun(old(State())).(
                previousBits := false, maxAlign := Max(old(maxAlign), AggAlign(Configuration(), agg)))
    {
      hide AlignUp, AggAlign, Max;
      EndBitFieldRun();
      previousWasNonzeroBitfield := false;
      var fa := AggAlign(Configuration(), agg);
      baseOffset := if unionLayout then 0 else AlignUp(size, fa);
      RaiseAlignment(fa);
    }

    static lemma AnonymousAdded(s: Layout, agg: Layout)
      ensures var fa, first, n := AggAlign(s.cfg, agg), |s.members|, |agg.members|;
              var base := if s.cfg.isUnion then 0 else AlignUp(s.size, fa);
              AddAnonymous(s, agg) ==
              EndRun(s).(previousBits := false, maxAlign := Max(s.maxAlign, fa),
                 members := s.members + agg.members, offsets := s.offsets + Shifted(agg.offsets, base),
                 bits := s.bits + MovedAll(agg.bits, base),
                 explicitAlign := s.explicitAlign + ShiftKeys(agg.explicitAlign, first, n),
                 packed := s.packed + ShiftSet(agg.packed, first, n),
                 size := (if s.cfg.isUnion then Max(s.size, base + agg.size) else base + agg.size),
                 groups := (if n > 0 then s.groups + [Group(first, n, agg, base)] else s.groups))
    {}

    method FlattenMembers(agg: Layout, baseOffset: int)
      requires |agg.offsets| == |agg.members| && |agg.bits| == |agg.members|
      modifies `members, `memberOffsets, `memberBitfields, `memberExplicitAlign, `memberPacked
      ensures members == old(members) + agg.members
      ensures memberOffsets == old(memberOffsets) + Shifted(agg.offsets, baseOffset)
      ensures memberBitfields == old(memberBitfields) + MovedAll(agg.bits, baseOffset)
      ensures memberExplicitAlign
           == old(memberExplicitAlign) + ShiftKeys(agg.explicitAlign, |old(members)|, |agg.members|)
      ensures memberPacked == old(memberPacked) + ShiftSet(agg.packed, |old(members)|, |agg.members|)
    {
      hide ShiftKeys, ShiftSet, Shifted, MovedAll;
      var firstMember := |members|;
      ghost var was := State();
      FlattenNone(agg, was, baseOffset);
      for i := 0 to |agg.members|
        invariant members == was.members + agg.members[..i]
        invariant memberOffsets == was.offsets + Shifted(agg.offsets[..i], baseOffset)
        invariant memberBitfields == was.bits + MovedAll(agg.bits[..i], baseOffset)
        invariant memberExplicitAlign == was.explicitAlign + ShiftKeys(agg.explicitAlign, firstMember, i)
        invariant memberPacked == was.packed + ShiftSet(agg.packed, firstMember, i)
      {
        FlattenOne(agg, was, i, baseOffset);
        FlattenAttributes(agg, was, i);
        FlattenMember(agg, i, baseOffset);
      }
      assert agg.members[..|agg.members|] == agg.members;
      assert agg.offsets[..|agg.members|] == agg.offsets && agg.bits[..|agg.members|] == agg.bits;
    }

    method FlattenMember(agg: Layout, i: nat, baseOffset: int)
      requires i < |agg.members| == |agg.offsets| == |agg.bits|
      modifies `members, `memberOffsets, `memberBitfields, `memberExplicitAlign, `memberPacked
      ensures members == old(members) + [agg.members[i]]
      ensures memberOffsets == old(memberOffsets) + [agg.offsets[i] + baseOffset]
      ensures memberBitfields == old(memberBitfields) + [Moved(agg.bits[i], baseOffset)]
      ensures memberExplicitAlign
           == if i in agg.explicitAlign then old(memberExplicitAlign)[|old(members)| := agg.explicitAlign[i]]
              else old(memberExplicitAlign)
      ensures memberPacked == if i in agg.packed then old(memberPacked) + {|old(members)|} else old(memberPacked)
    {
      members := members + [agg.members[i]];
      memberOffsets := memberOffsets + [agg.offsets[i] + baseOffset];
      var info := agg.bits[i];
      if info.isBitField { info := info.(storageOffset := info.storageOffset + baseOffset); }
      memberBitfields := memberBitfields + [info];
      if i in agg.explicitAlign {
        memberExplicitAlign := memberExplicitAlign[|members| - 1 := agg.explicitAlign[i]];
      }
      if i in agg.packed { memberPacked := memberPacked + {|members| - 1}; }
    }

    static lemma FlattenNone(agg: Layout, was: Layout, base: int)
      ensures was.members + agg.members[..0] == was.members
      ensures was.offsets + Shifted(agg.offsets[..0], base) == was.offsets
      ensures was.bits + MovedAll(agg.bits[..0], base) == was.bits
      ensures was.explicitAlign + ShiftKeys(agg.explicitAlign, |was.members|, 0) == was.explicitAlign
      ensures was.packed + ShiftSet(agg.packed, |was.members|, 0) == was.packed
    {}

    static lemma FlattenOne(agg: Layout, was: Layout, i: nat, base: int)
      requires i < |agg.members| == |agg.offsets| == |agg.bits|
      ensures was.members + agg.members[..i + 1] == was.members + agg.members[..i] + [agg.members[i]]
      ensures was.offsets + Shifted(agg.offsets[..i + 1], base)
           == was.offsets + Shifted(agg.offsets[..i], base) + [agg.offsets[i] + base]
      ensures was.bits + MovedAll(agg.bits[..i + 1], base)
           == was.bits + MovedAll(agg.bits[..i], base) + [Moved(agg.bits[i], base)]
    {}

    static lemma FlattenAttributes(agg: Layout, was: Layout, i: nat)
      ensures was.explicitAlign + ShiftKeys(agg.explicitAlign, |was.members|, i + 1)
           == (if i in agg.explicitAlign then
                 (was.explicitAlign + ShiftKeys(agg.explicitAlign, |was.members|, i))
                   [|was.members| + i := agg.explicitAlign[i]]
               else was.explicitAlign + ShiftKeys(agg.explicitAlign, |was.members|, i))
      ensures was.packed + ShiftSet(agg.packed, |was.members|, i + 1)
           == (if i in agg.packed then was.packed + ShiftSet(agg.packed, |was.members|, i) + {|was.members| + i}
               else was.packed + ShiftSet(agg.packed, |was.members|, i))
    {}

    /** Completion pads the record, and leaves it fit to be laid out again or carried. */
    method Finalize(cppMinObjectSize: bool)
      modifies this
      ensures State() == RecordLayout.Finalize(old(State()), cppMinObjectSize)
      ensures old(Valid()) ==> Relayable(State())
    {
      if Valid() { FinalizedRelayable(State(), cppMinObjectSize); }
      hide Relayable, Consistent;
      EndBitFieldRun();
      if cppMinObjectSize && size == 0 && |members| == 0 { size := 1; }
      size := AlignUp(size, maxAlign);
    }

    static lemma FinalizedRelayable(s: Layout, cppMin: bool)
      requires Consistent(s)
      ensures Relayable(RecordLayout.Finalize(s, cppMin))
    {
      SameListsWellFormed(s, RecordLayout.Finalize(s, cppMin));
    }

    method ApplyTagAlignment(align: nat)
      modifies this
      ensures State() == RecordLayout.ApplyTagAlignment(old(State()), align)
      ensures align <= maxAlign && align <= tagExplicitAlign && old(maxAlign) <= maxAlign
      ensures old(Valid()) ==> Valid()
    {
      TagAligns(State(), align);
      hide Consistent;
      if Valid() { TagKeeps(State(), align); }
      if align > maxAlign { maxAlign := align; }
      if align > tagExplicitAlign { tagExplicitAlign := align; }
    }

    method ApplyMemberAlignment(align: nat)
      requires |members| == |memberOffsets|
      modifies this
      ensures State() == RecordLayout.ApplyMemberAlignment(old(State()), align)
      ensures old(Valid()) && IsPow2OrZero(align) && (|old(members)| == 0 || old(LastIsOwn(State()))) ==> Valid()
    {
      hide RecordLayout.ApplyMemberAlignment, AlignUp, Max, Consistent, LastIsOwn, IsPow2OrZero;
      AlignmentKept(State(), align);
      MemberAligned(State(), align);
      if align == 0 || |members| == 0 { return; }
      if |members| - 1 in memberExplicitAlign && memberExplicitAlign[|members| - 1] >= align { return; }
      RaiseAlignment(align);
      memberExplicitAlign := memberExplicitAlign[|members| - 1 := align];
      if unionLayout { return; }
      MoveLastMember(align);
    }

    /** Moves the last member to the next multiple of `align`; the record grows by as much. */
    method MoveLastMember(align: nat)
      requires |memberOffsets| > 0
      modifies `memberOffsets, `size
      ensures var s := old(State());
              var last := |s.offsets| - 1;
              var at := AlignUp(s.offsets[last], align);
              State() == s.(offsets := s.offsets[last := at], size := s.size + (at - s.offsets[last]))
    {
      hide AlignUp;
      var idx := |memberOffsets| - 1;
      var oldOffset := memberOffsets[idx];
      var newOffset := AlignUp(oldOffset, align);
      if newOffset != oldOffset {
        var delta := newOffset - oldOffset;
        memberOffsets := memberOffsets[idx := newOffset];
        size := size + delta;
      } else {
        assert memberOffsets[idx := oldOffset] == memberOffsets;
      }
    }

    static lemma AlignmentKept(s: Layout, align: nat)
      ensures Consistent(s) && IsPow2OrZero(align) && (|s.members| == 0 || LastIsOwn(s))
              ==> Consistent(RecordLayout.ApplyMemberAlignment(s, align))
    {
      if Consistent(s) && IsPow2OrZero(align) && (|s.members| == 0 || LastIsOwn(s)) { AlignKeeps(s, align); }
    }

    static lemma MemberAligned(s: Layout, align: nat)
      requires |s.members| == |s.offsets|
      ensures AlignIgnored(s, align) ==> RecordLayout.ApplyMemberAlignment(s, align) == s
      ensures !AlignIgnored(s, align) ==>
        var last := |s.members| - 1;
        var at := if s.cfg.isUnion then s.offsets[last] else AlignUp(s.offsets[last], align);
        RecordLayout.ApplyMemberAlignment(s, align)
        == s.(maxAlign := Max(s.maxAlign, align), explicitAlign := s.explicitAlign[last := align],
              offsets := s.offsets[last := at], size := s.size + (at - s.offsets[last]))
    {
      if |s.members| > 0 { assert s.offsets[|s.members| - 1 := s.offsets[|s.members| - 1]] == s.offsets; }
    }

    /** Replays the own members into `scratch`, a fresh record whose size the caller set to where
        the members begin; `own[k]` is the member that scratch's member k replays. */
    method ReplayOwnMembers(scratch: DataDefStruct) returns (own: seq<nat>)
      requires scratch != this && scratch.microsoft == microsoft && WellFormed(State())
      requires scratch.State() == Empty(Config(microsoft, 0, 0, false, false)).(size := scratch.size)
      modifies scratch
      ensures scratch.State() == Replay(State(), old(scratch.size))
      ensures |own| == |members| && forall k :: 0 <= k < |own| ==> own[k] == k
    {
      PrepareScratch(scratch);
      own := ReplayMembers(scratch);
    }

    method ReplayMembers(scratch: DataDefStruct) returns (own: seq<nat>)
      requires scratch != this && WellFormed(State())
      requires scratch.Configuration() == Configuration() && Lists(scratch.State())
      modifies scratch
      ensures scratch.State() == Fold(old(scratch.State()), Decls(State(), 0, 0))
      ensures |own| == |members| && forall k :: 0 <= k < |own| ==> own[k] == k
    {
      hide Fold, Decls, Step, WellFormed;
      ghost var s, whole := State(), Fold(scratch.State(), Decls(State(), 0, 0));
      own := [];
      var nextAnon, i := 0, 0;
      while i < |members|
        invariant i <= |members| && scratch.Configuration() == Configuration() && Lists(scratch.State())
        invariant Fold(scratch.State(), Decls(s, i, nextAnon)) == whole
        invariant |own| == i && forall k :: 0 <= k < i ==> own[k] == k
      {
        var count;
        nextAnon, count := ReplayUnit(scratch, nextAnon, i);
        own := own + seq(count, k => i + k);
        i := i + count;
      }
      FoldDone(s, nextAnon, scratch.State());
    }

    method PrepareScratch(scratch: DataDefStruct)
      requires scratch != this && scratch.microsoft == microsoft
      requires scratch.State() == Empty(Config(microsoft, 0, 0, false, false)).(size := scratch.size)
      modifies scratch
      ensures scratch.State() == Empty(Configuration()).(size := old(scratch.size))
      ensures scratch.Configuration() == Configuration() && Lists(scratch.State())
    {
      scratch.pack := pack;
      scratch.pragmaPack := pragmaPack;
      scratch.unionLayout := unionLayout;
      scratch.reverseScalarStorage := reverseScalarStorage;
    }

    /** Replays the unit at member i: one own member, or a whole anonymous aggregate. */
    method ReplayUnit(scratch: DataDefStruct, nextAnon: nat, i: nat) returns (passed: nat, count: nat)
      requires scratch != this && WellFormed(State()) && i < |members|
      requires scratch.Configuration() == Configuration() && Lists(scratch.State())
      modifies scratch
      ensures 0 < count && i + count <= |members|
      ensures scratch.Configuration() == Configuration() && Lists(scratch.State())
      ensures Fold(scratch.State(), Decls(State(), i + count, passed))
           == Fold(old(scratch.State()), Decls(State(), i, nextAnon))
    {
      hide Fold, Decls, Step, AddAnonymous, WellFormed;
      ghost var s, r := State(), scratch.State();
      assert |members| == |memberBitfields| by { HasBits(s); }
      passed := nextAnon;
      while passed < |anonymousAggregates| && anonymousAggregates[passed].first < i
        invariant Decls(s, i, passed) == Decls(s, i, nextAnon) && scratch.State() == r && State() == s
      {
        DeclsPass(s, i, passed);
        passed := passed + 1;
      }
      if passed < |anonymousAggregates| && anonymousAggregates[passed].first == i {
        FoldAnon(s, i, passed, r);
        var ai := anonymousAggregates[passed];
        passed, count := passed + 1, ai.count;
        scratch.AddAnonymousAggregate(ai.agg);
      } else {
        OwnUnit(s, i, passed);
        FoldUnitOwn(s, i, passed, r);
        count := 1;
        ReplayOne(scratch, i);
      }
    }

    static lemma HasBits(s: Layout)
      requires WellFormed(s)
      ensures |s.members| == |s.bits|
    {}

    static lemma FoldAnon(s: Layout, i: nat, g: nat, r: Layout)
      requires WellFormed(s) && g < |s.groups| && s.groups[g].first == i && Lists(r)
      ensures var gr := s.groups[g];
              var q := AddAnonymous(r, gr.agg);
              && gr.count > 0 && Lists(gr.agg) && i + gr.count <= |s.members|
              && Lists(q) && q.cfg == r.cfg
              && Fold(r, Decls(s, i, g)) == Fold(q, Decls(s, i + gr.count, g + 1))
    {
      hide AddAnonymous;
      var gr := s.groups[g];
      assert GroupFits(s, gr);
      HasBits(s);
      hide WellFormed, GroupFits;
      AnonLists(r, gr.agg);
      FoldUnitAnon(s, i, g, r);
    }

    static lemma OwnUnit(s: Layout, i: nat, g: nat)
      requires g >= |s.groups| || s.groups[g].first > i
      ensures !GroupPassed(s, i, g) && !GroupStarts(s, i, g)
    {}

    method ReplayOne(scratch: DataDefStruct, i: nat)
      requires scratch != this && i < |members| == |memberBitfields| && Lists(scratch.State())
      requires scratch.Configuration() == Configuration()
      modifies scratch
      ensures scratch.State() == Step(old(scratch.State()), OwnAt(State(), i))
      ensures scratch.Configuration() == Configuration() && Lists(scratch.State())
    {
      ghost var r, d := scratch.State(), OwnAt(State(), i);
      AlignZero(AddOwn(r, d));
      AddOwnGrows(r, d);
      AlignKeepsShape(AddOwn(r, d), d.align);
      hide RecordLayout.ApplyMemberAlignment, AddOwn;
      ReplayUnaligned(scratch, i);
      if i in memberExplicitAlign { scratch.ApplyMemberAlignment(memberExplicitAlign[i]); }
    }

    static lemma AlignZero(a: Layout)
      ensures RecordLayout.ApplyMemberAlignment(a, 0) == a
    {}

    method ReplayUnaligned(scratch: DataDefStruct, i: nat)
      requires scratch != this && i < |members| == |memberBitfields| && Lists(scratch.State())
      requires scratch.Configuration() == Configuration()
      modifies scratch
      ensures scratch.State() == AddOwn(old(scratch.State()), OwnAt(State(), i))
    {
      scratch.AddUnderPack(members[i], memberBitfields[i], i in memberPacked, pack);
      hide RecordLayout.AddMember, RecordLayout.AddBitField;
    }

    /** Adds a member, a packed one under a pack of 1, and sets the record's packing back. */
    method AddUnderPack(m: Member, info: BitField, packed: bool, recordPack: nat)
      requires Lists(State()) && recordPack == pack
      modifies this
      ensures State() == AddOwn(old(State()), Own(m, info.isBitField, info.bitWidth, packed, 0))
    {
      OwnAdded(State(), Own(m, info.isBitField, info.bitWidth, packed, 0));
      hide RecordLayout.AddMember, RecordLayout.AddBitField, AddOwn;
      if packed { SetPack(1); }
      AddRecorded(m, info);
      SetPack(recordPack);
    }

    static lemma OwnAdded(r: Layout, d: Decl)
      requires d.Own? && Lists(r)
      ensures var c := r.(cfg := PackedConfig(r.cfg, d.packed));
              var a := if d.isBits then RecordLayout.AddBitField(c, d.m.name, d.m.ty, d.width)
                       else RecordLayout.AddMember(c, d.m);
              AddOwn(r, d) == a.(cfg := r.cfg) && a.cfg == c.cfg
    {
      AddGrows(UnderPack(r, d.packed), d);
      hide RecordLayout.AddMember, RecordLayout.AddBitField;
    }

    method SetPack(n: nat)
      modifies `pack
      ensures State() == old(State()).(cfg := old(State()).cfg.(pack := n))
    {
      pack := n;
    }

    method AddRecorded(m: Member, info: BitField)
      modifies this
      ensures State() == if info.isBitField then RecordLayout.AddBitField(old(State()), m.name, m.ty, info.bitWidth)
                         else RecordLayout.AddMember(old(State()), m)
    {
      hide RecordLayout.AddMember, RecordLayout.AddBitField;
      if info.isBitField { AddBitField(m.name, m.ty, info.bitWidth); } else { AddMember(m); }
    }

    static lemma AnonLists(r: Layout, agg: Layout)
      requires Lists(r) && Lists(agg)
      ensures Lists(AddAnonymous(r, agg)) && AddAnonymous(r, agg).cfg == r.cfg
    {}

    /** Lays the recorded members out again from `start`, as a late attribute needs. */
    method Relayout(start: nat)
      requires WellFormed(State())
      modifies this
      ensures State() == RelayoutFrom(old(State()), start)
      ensures start == 0 && old(Relayable(State())) ==> Valid()
      ensures start == 0 && old(Valid()) ==> State() == old(State())
    {
      hide Consistent, Relayable, Rebased, Replay, WellFormed, RelayoutFrom;
      ghost var s := State();
      RelaidFrom(s, start);
      var scratch := new DataDefStruct(microsoft);
      scratch.size := start;
      var own := ReplayOwnMembers(scratch);
      Install(scratch, own, start);
    }

    static lemma RelaidFrom(s: Layout, start: nat)
      requires WellFormed(s)
      ensures var r := Replay(s, start);
              && r.size >= start && RelayoutFrom(s, start) == Rebased(s, r, start)
              && |r.offsets| == |r.bits| == |s.members| == |s.offsets| == |s.bits|
              && forall j :: 0 <= j < |r.groups| ==> r.groups[j].first < |s.members|
      ensures start == 0 && Relayable(s) ==> Consistent(RelayoutFrom(s, start))
      ensures start == 0 && Consistent(s) ==> RelayoutFrom(s, start) == s
    {
      ReplayRebuilds(s, start);
      GroupsInside(s, Replay(s, start));
      if Relayable(s) { RelayoutKeeps(s); }
      if Consistent(s) { RelayoutOfConsistent(s); }
      hide Replay, Rebased, Relayable, Consistent, WellFormed;
    }

    /** Copies scratch's layout back, relative to `start`. */
    method Install(scratch: DataDefStruct, own: seq<nat>, start: nat)
      requires scratch != this && scratch.size >= start
      requires |own| == |memberOffsets| == |memberBitfields|
      requires |scratch.memberOffsets| == |own| && |scratch.memberBitfields| == |own|
      requires forall k :: 0 <= k < |own| ==> own[k] == k
      requires forall j :: 0 <= j < |scratch.anonymousAggregates| ==> scratch.anonymousAggregates[j].first < |own|
      modifies this
      ensures State() == Rebased(old(State()), scratch.State(), start)
    {
      hide Max, Shifted, MovedAll, MovedGroups;
      TakeOffsets(scratch, own, start);
      TakeGroups(scratch, own, start);
      TakeSizes(scratch, start);
      TakeCursor(scratch, start);
    }

    static lemma GroupsInside(s: Layout, r: Layout)
      requires WellFormed(s) && Rebuilt(s, |s.members|, |s.groups|, r)
      ensures forall j :: 0 <= j < |r.groups| ==> r.groups[j].first < |s.members|
      ensures |r.offsets| == |r.bits| == |s.members| == |s.offsets| == |s.bits|
    {
      forall j | 0 <= j < |r.groups| ensures r.groups[j].first < |s.members| {
        assert SameGroup(r.groups[j], s.groups[j]) && GroupFits(s, s.groups[j]);
      }
    }

    method TakeSizes(scratch: DataDefStruct, start: nat)
      requires scratch != this && scratch.size >= start
      modifies `size, `maxAlign, `previousWasNonzeroBitfield
      ensures State() == old(State()).(
                size := scratch.size - start, maxAlign := Max(scratch.maxAlign, tagExplicitAlign),
                previousBits := scratch.previousWasNonzeroBitfield)
    {
      previousWasNonzeroBitfield := scratch.previousWasNonzeroBitfield;
      size := scratch.size - start;
      maxAlign := if scratch.maxAlign > tagExplicitAlign then scratch.maxAlign else tagExplicitAlign;
    }

    method TakeCursor(scratch: DataDefStruct, start: nat)
      requires scratch != this
      modifies `bitfieldActive, `bitfieldUnitOffset, `bitfieldUnitSize, `bitfieldNextBit
      ensures State() == old(State()).(
                active := scratch.bitfieldActive,
                unitOffset := if scratch.bitfieldUnitOffset >= start then scratch.bitfieldUnitOffset - start else 0,
                unitSize := scratch.bitfieldUnitSize, nextBit := scratch.bitfieldNextBit)
    {
      bitfieldActive := scratch.bitfieldActive;
      bitfieldUnitOffset := if scratch.bitfieldUnitOffset >= start then scratch.bitfieldUnitOffset - start else 0;
      bitfieldUnitSize := scratch.bitfieldUnitSize;
      bitfieldNextBit := scratch.bitfieldNextBit;
    }

    method TakeOffsets(scratch: DataDefStruct, own: seq<nat>, start: nat)
      requires scratch != this && |own| == |memberOffsets| == |memberBitfields|
      requires |scratch.memberOffsets| == |own| && |scratch.memberBitfields| == |own|
      requires forall k :: 0 <= k < |own| ==> own[k] == k
      modifies `memberOffsets, `memberBitfields
      ensures memberOffsets == Shifted(scratch.memberOffsets, 0 - start)
      ensures memberBitfields == MovedAll(scratch.memberBitfields, 0 - start)
    {
      for k := 0 to |own|
        invariant |memberOffsets| == |own| && |memberBitfields| == |own|
        invariant forall j :: 0 <= j < k ==> memberOffsets[j] == scratch.memberOffsets[j] - start
        invariant forall j :: 0 <= j < k ==> memberBitfields[j] == Moved(scratch.memberBitfields[j], 0 - start)
      {
        memberOffsets := memberOffsets[own[k] := scratch.memberOffsets[k] - start];
        var info := scratch.memberBitfields[k];
        if info.isBitField { info := info.(storageOffset := info.storageOffset - start); }
        memberBitfields := memberBitfields[own[k] := info];
      }
    }

    method TakeGroups(scratch: DataDefStruct, own: seq<nat>, start: nat)
      requires scratch != this && forall k :: 0 <= k < |own| ==> own[k] == k
      requires forall j :: 0 <= j < |scratch.anonymousAggregates| ==> scratch.anonymousAggregates[j].first < |own|
      modifies `anonymousAggregates
      ensures anonymousAggregates == MovedGroups(scratch.anonymousAggregates, 0 - start)
    {
      anonymousAggregates := scratch.anonymousAggregates;
      for j := 0 to |anonymousAggregates|
        invariant |anonymousAggregates| == |scratch.anonymousAggregates|
        invariant forall k :: 0 <= k < j ==>
                    anonymousAggregates[k]
                    == scratch.anonymousAggregates[k].(offset := scratch.anonymousAggregates[k].offset - start)
        invariant forall k :: j <= k < |anonymousAggregates| ==>
                    anonymousAggregates[k] == scratch.anonymousAggregates[k]
      {
        var g := anonymousAggregates[j];
        anonymousAggregates := anonymousAggregates[j := g.(first := own[g.first], offset := g.offset - start)];
      }
    }

    method OwnMemberAlignment() returns (align: nat)
      requires WellFormed(State())
      ensures align == Agreement.OwnMemberAlignment(State())
    {
      if tagExplicitAlign < maxAlign { return maxAlign; }
      var scratch := new DataDefStruct(microsoft);
      var own := ReplayOwnMembers(scratch);
      align := scratch.maxAlign;
    }

    /** `packed` on the member just added. */
    method ApplyMemberPacking()
      requires WellFormed(State())
      modifies this
      ensures State() == RecordLayout.ApplyMemberPacking(old(State()))
      ensures old(Valid()) ==> Valid()
    {
      hide Consistent, Relayable, RelayoutFrom, WellFormed, RecordLayout.ApplyMemberPacking;
      PackingKept(State());
      if |members| == 0 || |members| - 1 in memberPacked { return; }
      memberPacked := memberPacked + {|members| - 1};
      Relayout(0);
    }

    static lemma PackingKept(s: Layout)
      requires WellFormed(s)
      ensures Consistent(s) ==> Consistent(RecordLayout.ApplyMemberPacking(s))
      ensures RecordLayout.ApplyMemberPacking(s)
           == if s.members == [] || |s.members| - 1 in s.packed then s else RelayoutFrom(LastPacked(s), 0)
      ensures s.members != [] ==> WellFormed(LastPacked(s))
    {
      if Consistent(s) { PackKeeps(s); }
      PackingRelays(s);
      if s.members != [] { SameListsWellFormed(s, LastPacked(s)); }
      hide WellFormed, RelayoutFrom, Consistent, RecordLayout.ApplyMemberPacking;
    }

    static lemma ReversedRelayable(s: Layout, reverse: bool)
      requires Relayable(s)
      ensures Relayable(SetReverse(s, reverse))
    {
      var t := SetReverse(s, reverse);
      forall i | 0 <= i < |s.members| ensures SameShape(t.bits[i], s.bits[i]) {}
      forall g | 0 <= g < |s.groups| ensures SameGroup(t.groups[g], s.groups[g]) {}
      SameDeclsWellFormed(s, t);
    }

    method SetReverseScalarStorage(reverse: bool)
      modifies `reverseScalarStorage, `memberBitfields
      ensures State() == SetReverse(old(State()), reverse)
      ensures old(Relayable(State())) ==> Relayable(State())
    {
      if Relayable(State()) { ReversedRelayable(State(), reverse); }
      hide Relayable;
      reverseScalarStorage := reverse;
      for i := 0 to |memberBitfields|
        invariant reverseScalarStorage == reverse && |memberBitfields| == |old(memberBitfields)|
        invariant forall k :: 0 <= k < i ==> memberBitfields[k] == Flipped(old(memberBitfields)[k], reverse)
        invariant forall k :: i <= k < |memberBitfields| ==> memberBitfields[k] == old(memberBitfields)[k]
      {
        var info := memberBitfields[i];
        if info.isBitField {
          var storageBits := info.storageSize * 8;
          var forward := if info.reverse then storageBits - info.bitOffset - info.bitWidth else info.bitOffset;
          info := info.(bitOffset := if reverse then storageBits - forward - info.bitWidth else forward,
                        reverse := reverse);
          memberBitfields := memberBitfields[i := info];
        }
      }
      assert memberBitfields == FlippedAll(old(memberBitfields), reverse);
    }
  }
}
