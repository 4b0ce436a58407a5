/** Reverse scalar storage order, set before the first member or flipped in afterwards. */
module Reversal {
  import opened Alignment
  import opened RecordLayout
  import opened ReplayedLayout
  import opened Agreement
  import opened Placement
  import opened Windows
  import opened Units

  lemma FlipTwice(info: BitField, reverse: bool)
    ensures Flipped(Flipped(info, reverse), reverse) == Flipped(info, reverse)
    ensures Forward(Flipped(info, reverse)) == Forward(info) || !info.isBitField
  {}

  lemma FlippedAllTwice(bits: seq<BitField>, reverse: bool)
    ensures FlippedAll(FlippedAll(bits, reverse), reverse) == FlippedAll(bits, reverse)
  {
    forall i | 0 <= i < |bits| ensures Flipped(Flipped(bits[i], reverse), reverse) == Flipped(bits[i], reverse) {
      FlipTwice(bits[i], reverse);
    }
  }

  /** Asking twice for one order changes nothing more, and no field's forward position moves. */
  lemma SetReverseIdempotent(s: Layout, reverse: bool)
    ensures SetReverse(SetReverse(s, reverse), reverse) == SetReverse(s, reverse)
    ensures forall i :: 0 <= i < |s.bits| && s.bits[i].isBitField ==>
              Forward(SetReverse(s, reverse).bits[i]) == Forward(s.bits[i])
              && SetReverse(s, reverse).bits[i].reverse == reverse
  {
    FlippedAllTwice(s.bits, reverse);
  }

  ghost predicate FieldsIn(bits: seq<BitField>, reverse: bool) {
    forall i :: 0 <= i < |bits| && bits[i].isBitField ==> bits[i].reverse == reverse
  }

  /** Flipping there and back restores a record exactly when every bit-field in it, flattened
      ones included, was in the record's own order. */
  lemma FlipBackRestoresIff(s: Layout)
    ensures SetReverse(SetReverse(s, !s.cfg.reverse), s.cfg.reverse) == s <==> FieldsIn(s.bits, s.cfg.reverse)
  {
    var r := s.cfg.reverse;
    var there := FlippedAll(s.bits, !r);
    var back := FlippedAll(there, r);
    forall i | 0 <= i < |s.bits| ensures back[i] == s.bits[i] <==> (s.bits[i].isBitField ==> s.bits[i].reverse == r) {}
    if FieldsIn(s.bits, r) { assert back == s.bits; }
    assert SetReverse(SetReverse(s, !r), r).bits == back;
  }

  // ----- flipping late

  /** Bit-field i starts on the very bit where the member or block before it ends. */
  ghost predicate StartsAtEnd(s: Layout, i: nat)
    requires Lists(s) && i < |s.members|
  {
    && (i == 0 ==> Lo(s, i) == 0)
    && (i > 0 && OwnMember(s, i - 1) ==> Lo(s, i) == Hi(s, i - 1))
    && forall g :: 0 <= g < |s.groups| && s.groups[g].first + s.groups[g].count == i
         ==> Lo(s, i) == BlockEnd(s.groups[g])
  }

  /** A bit-field recorded in a unit of its type that is aligned and holds all of it. */
  predicate InOwnUnit(info: BitField) {
    && info.storageSize != 0 && info.storageOffset % info.storageSize == 0
    && Forward(info) + info.bitWidth <= 8 * info.storageSize
  }

  /** Only a System V bit-field under a packing may be placed differently in the two orders. */
  predicate OrderPlaces(cfg: Config, packed: bool) {
    !cfg.microsoft && !cfg.isUnion && PackedConfig(cfg, packed).pack != 0
  }

  /** Member i would have been placed alike in the other order. A `:0` never is; a packed System V
      bit-field is where forward order let it straddle no unit, or reverse order moved it to none;
      and a flattened bit-field keeps the order of its own aggregate. */
  ghost predicate FlipSafe(s: Layout, i: nat)
    requires Lists(s) && i < |s.members|
  {
    s.bits[i].isBitField ==>
      if !OwnMember(s, i) then s.bits[i].reverse != s.cfg.reverse
      else s.bits[i].bitWidth > 0
           && (OrderPlaces(s.cfg, i in s.packed) ==> if s.cfg.reverse then StartsAtEnd(s, i) else InOwnUnit(s.bits[i]))
  }

  /** The same of a declaration about to be added to `r`. */
  ghost predicate FlipFits(r: Layout, d: Decl) {
    match d
    case Anon(agg) => FieldsIn(agg.bits, !r.cfg.reverse)
    case Own(m, isBits, width, packed, _) =>
      isBits ==> width > 0 && (OrderPlaces(r.cfg, packed) ==> !Crosses(CursorBit(r), width, 8 * BitStorage(m.ty)))
  }

  // ----- a declaration that fits is placed alike

  lemma FlippedAppend(bits: seq<BitField>, more: seq<BitField>, reverse: bool)
    ensures FlippedAll(bits + more, reverse) == FlippedAll(bits, reverse) + FlippedAll(more, reverse)
  {}

  lemma AppendFlipped(r: Layout, m: Member, at: int, info: BitField, o: bool)
    ensures Append(SetReverse(r, o), m, at, Flipped(info, o)) == SetReverse(Append(r, m, at, info), o)
  {
    FlippedAppend(r.bits, [info], o);
    assert FlippedAll([info], o) == [Flipped(info, o)];
  }

  /** Where no window is crossed, straddling makes no difference. */
  lemma WindowFlipped(cfg: Config, cursor: nat, storage: nat, width: nat)
    requires storage != 0 && (cfg.pack == 0 || !Crosses(cursor, width, storage * 8))
    ensures var other := cfg.(reverse := !cfg.reverse);
            var bit := SysVBit(cfg, cursor, storage * 8, width);
            SysVBit(other, cursor, storage * 8, width) == bit
            && SysVWindow(other, bit, storage, width) == SysVWindow(cfg, bit, storage, width)
  {
    hide AlignUp;
  }

  lemma SysVFlipped(r: Layout, ty: FieldType, width: nat)
    requires !r.cfg.microsoft && width <= 8 * BitStorage(ty)
    requires OrderPlaces(r.cfg, false) ==> !Crosses(CursorBit(r), width, 8 * BitStorage(ty))
    ensures OpenField(SetReverse(r, !r.cfg.reverse), ty, width) == SetReverse(OpenField(r, ty, width), !r.cfg.reverse)
  {
    var s := SetReverse(r, !r.cfg.reverse);
    assert CursorBit(s) == CursorBit(r);
    assert r.cfg.pack == 0 || !Crosses(CursorBit(r), width, BitStorage(ty) * 8);
    hide OpenField, SysVBit, SysVWindow, FlippedAll, CursorBit, BitStorage, Max;
    OpenSysV(r, ty, width);
    OpenSysV(s, ty, width);
    WindowFlipped(r.cfg, CursorBit(r), BitStorage(ty), width);
  }

  lemma OpenFlipped(r: Layout, ty: FieldType, width: nat)
    requires width <= 8 * BitStorage(ty)
    requires OrderPlaces(r.cfg, false) ==> !Crosses(CursorBit(r), width, 8 * BitStorage(ty))
    ensures OpenField(SetReverse(r, !r.cfg.reverse), ty, width) == SetReverse(OpenField(r, ty, width), !r.cfg.reverse)
    ensures OpenField(r, ty, width).cfg == r.cfg
  {
    hide AlignUp, BitStorage, SysVBit, SysVWindow, FlippedAll, CursorBit, Crosses, Max;
    if r.cfg.microsoft {
      assert FieldAlign(SetReverse(r, !r.cfg.reverse).cfg, ty) == FieldAlign(r.cfg, ty);
    } else {
      SysVFlipped(r, ty, width);
    }
  }

  lemma ClosedFlipped(c: Layout, ty: FieldType, width: nat)
    ensures var o := !c.cfg.reverse;
            && SetReverse(c, o).unitOffset == c.unitOffset
            && FieldInfo(SetReverse(c, o), ty, width) == Flipped(FieldInfo(c, ty, width), o)
            && CloseField(SetReverse(c, o), ty, width) == SetReverse(CloseField(c, ty, width), o)
  {
    hide FlippedAll, BitStorage;
  }

  lemma BitsFlipped(r: Layout, name: string, ty: FieldType, width: nat)
    requires 0 < width <= 8 * BitStorage(ty)
    requires OrderPlaces(r.cfg, false) ==> !Crosses(CursorBit(r), width, 8 * BitStorage(ty))
    ensures var o := !r.cfg.reverse;
            AddBitField(SetReverse(r, o), name, ty, width) == SetReverse(AddBitField(r, name, ty, width), o)
  {
    var o := !r.cfg.reverse;
    var c := OpenField(r, ty, width);
    OpenFlipped(r, ty, width);
    ClosedFlipped(c, ty, width);
    hide OpenField, SetReverse, CloseField, FieldInfo, Append;
    AppendFlipped(CloseField(c, ty, width), Member(name, ty, 1, false), c.unitOffset, FieldInfo(c, ty, width), o);
  }

  lemma MemberFlipped(r: Layout, m: Member, o: bool)
    ensures AddMember(SetReverse(r, o), m) == SetReverse(AddMember(r, m), o)
  {
    FlippedAppend(r.bits, [PLAIN], o);
    assert FlippedAll([PLAIN], o) == [PLAIN];
  }

  lemma AnonFlipped(r: Layout, agg: Layout, o: bool)
    requires FieldsIn(agg.bits, o)
    ensures AddAnonymous(SetReverse(r, o), agg) == SetReverse(AddAnonymous(r, agg), o)
  {
    var base := if r.cfg.isUnion then 0 else AlignUp(r.size, AggAlign(r.cfg, agg));
    var moved := MovedAll(agg.bits, base);
    FlippedAppend(r.bits, moved, o);
    forall i | 0 <= i < |moved| ensures Flipped(moved[i], o) == moved[i] {
      assert moved[i] == Moved(agg.bits[i], base);
    }
    assert FlippedAll(moved, o) == moved;
  }

  lemma AlignFlipped(r: Layout, align: nat, o: bool)
    ensures ApplyMemberAlignment(SetReverse(r, o), align) == SetReverse(ApplyMemberAlignment(r, align), o)
  {}

  lemma OwnFlipped(r: Layout, d: Decl)
    requires d.Own? && FlipFits(r, d) && (d.isBits ==> d.width <= 8 * BitStorage(d.m.ty))
    ensures AddOwn(SetReverse(r, !r.cfg.reverse), d) == SetReverse(AddOwn(r, d), !r.cfg.reverse)
  {
    hide AddBitField, AddMember;
    var c := UnderPack(r, d.packed);
    assert CursorBit(c) == CursorBit(r);
    if d.isBits { BitsFlipped(c, d.m.name, d.m.ty, d.width); } else { MemberFlipped(c, d.m, !r.cfg.reverse); }
  }

  lemma StepFlipped(r: Layout, d: Decl)
    requires FlipFits(r, d) && LegalDecl(d)
    ensures Step(SetReverse(r, !r.cfg.reverse), d) == SetReverse(Step(r, d), !r.cfg.reverse)
  {
    if d.Anon? {
      AnonFlipped(r, d.agg, !r.cfg.reverse);
    } else {
      OwnFlipped(r, d);
      AlignFlipped(AddOwn(r, d), d.align, !r.cfg.reverse);
    }
    hide AddOwn, AddAnonymous, ApplyMemberAlignment, SetReverse;
  }

  // ----- a declaration that does not fit is placed differently

  /** A unit that starts at or before a bit and one behind it. */
  lemma UnitBehind(c: nat, storage: nat, a: nat)
    requires storage != 0 && a % (storage * 8) == 0 && c < a
    ensures a / (storage * 8) * storage > c / 8
  {
    var q := a / (storage * 8);
    assert a == q * (storage * 8) == q * storage * 8;
  }

  /** A byte-aligned start inside the unit it leaves is no unit's start. */
  lemma LeavesUnit(c: nat, storage: nat, width: nat)
    requires storage != 0 && Crosses(c, width, storage * 8)
    ensures !(c / 8 % storage == 0 && c - c / 8 * 8 + width <= storage * 8)
  {
    if c / 8 % storage == 0 {
      var m := c / 8 / storage;
      assert c / 8 == m * storage && m * storage * 8 == m * (storage * 8);
      DivUnique(c, storage * 8, m, c % 8);
    }
  }

  /** Where a field crosses a window, straddling and moving on record different units. */
  lemma CrossingUnits(c: nat, storage: nat, width: nat)
    requires 0 < width <= storage * 8 && Crosses(c, width, storage * 8)
    ensures AlignUp(c, storage * 8) / (storage * 8) * storage > c / 8
    ensures c < AlignUp(c, storage * 8) && !Crosses(AlignUp(c, storage * 8), width, storage * 8)
    ensures !(c / 8 % storage == 0 && c - c / 8 * 8 + width <= storage * 8)
  {
    AlignUpRounds(c, storage * 8);
    hide AlignUp;
    LeavesUnit(c, storage, width);
    UnitBehind(c, storage, AlignUp(c, storage * 8));
  }

  lemma InWindow(c: nat, storage: nat, width: nat)
    requires storage != 0 && !Crosses(c, width, storage * 8)
    ensures var window := c / (storage * 8) * storage;
            window % storage == 0 && 0 <= c - window * 8 && c - window * 8 + width <= storage * 8
  {
    WindowBelow(c, storage);
    DivUnique(c / (storage * 8) * storage, storage, c / (storage * 8), 0);
  }

  lemma FieldEntry(r: Layout, d: Decl)
    requires d.Own? && d.isBits && OrderPlaces(r.cfg, d.packed) && d.width > 0
    ensures var info, storage := Entry(r, d), BitStorage(d.m.ty);
            var bit := SysVBit(PackedConfig(r.cfg, d.packed), CursorBit(r), storage * 8, d.width);
            var window := SysVWindow(PackedConfig(r.cfg, d.packed), bit, storage, d.width);
            && info.isBitField && info.bitWidth == d.width && info.storageSize == storage
            && info.storageOffset == window && Forward(info) == bit - window * 8
  {
    var c := UnderPack(r, d.packed);
    assert CursorBit(c) == CursorBit(r);
    OpenSysV(c, d.m.ty, d.width);
    hide OpenField, SysVBit, SysVWindow, BitStorage, CursorBit, FieldAlign, Max;
  }

  /** Whether a packed field crossed is seen from where it was put. */
  lemma EntryShows(r: Layout, d: Decl)
    requires d.Own? && d.isBits && OrderPlaces(r.cfg, d.packed) && 0 < d.width <= 8 * BitStorage(d.m.ty)
    ensures var info := Entry(r, d);
            var safe := !Crosses(CursorBit(r), d.width, 8 * BitStorage(d.m.ty));
            if r.cfg.reverse then (8 * info.storageOffset + Forward(info) == CursorBit(r) <==> safe)
            else (InOwnUnit(info) <==> safe)
  {
    var c, storage := CursorBit(r), BitStorage(d.m.ty);
    FieldEntry(r, d);
    if Crosses(c, d.width, storage * 8) { CrossingUnits(c, storage, d.width); } else { InWindow(c, storage, d.width); }
    hide Entry, CursorBit, AlignUp, BitStorage;
  }

  lemma FieldEntryDiffers(r: Layout, d: Decl)
    requires d.Own? && d.isBits && OrderPlaces(r.cfg, d.packed) && 0 < d.width <= 8 * BitStorage(d.m.ty)
    requires Crosses(CursorBit(r), d.width, 8 * BitStorage(d.m.ty))
    ensures Entry(SetReverse(r, !r.cfg.reverse), d).storageOffset != Entry(r, d).storageOffset
  {
    var s := SetReverse(r, !r.cfg.reverse);
    assert CursorBit(s) == CursorBit(r);
    FieldEntry(r, d);
    FieldEntry(s, d);
    CrossingUnits(CursorBit(r), BitStorage(d.m.ty), d.width);
    hide Entry, CursorBit, AlignUp, BitStorage;
  }

  lemma BoundaryEntryDiffers(r: Layout, d: Decl)
    requires d.Own? && d.isBits && d.m.name == "" && d.width == 0
    ensures Entry(SetReverse(r, !r.cfg.reverse), d) != Flipped(Entry(r, d), !r.cfg.reverse)
  {
    hide AddBoundary;
  }

  lemma OwnDiffers(r: Layout, d: Decl)
    requires d.Own? && LegalDecl(d) && Lists(r) && !FlipFits(r, d)
    ensures var o, n := !r.cfg.reverse, |r.bits|;
            var q, f := Step(r, d), Step(SetReverse(r, o), d);
            n < |q.bits| && n < |f.bits| && f.bits[n] != Flipped(q.bits[n], o)
  {
    StepEntry(r, d);
    StepEntry(SetReverse(r, !r.cfg.reverse), d);
    if d.width == 0 { BoundaryEntryDiffers(r, d); } else { FieldEntryDiffers(r, d); }
    hide Step, Entry, CursorBit;
  }

  lemma AnonDiffers(r: Layout, agg: Layout) returns (k: nat)
    requires Lists(r) && Lists(agg) && !FieldsIn(agg.bits, !r.cfg.reverse)
    ensures var o, n := !r.cfg.reverse, |r.bits| + k;
            var q, f := Step(r, Anon(agg)), Step(SetReverse(r, o), Anon(agg));
            && k < |agg.bits| && n < |q.bits| && n < |f.bits| && f.bits[n] != Flipped(q.bits[n], o)
  {
    hide AlignUp, AggAlign, ShiftKeys, ShiftSet, Lists;
    k :| 0 <= k < |agg.bits| && agg.bits[k].isBitField && agg.bits[k].reverse != !r.cfg.reverse;
  }

  // ----- reading the condition off the record

  /** The replay's next free bit is where the unit before member i ends. */
  ghost predicate Ends(s: Layout, i: nat, r: Layout)
    requires Lists(s) && i <= |s.members|
  {
    !s.cfg.microsoft && !s.cfg.isUnion ==>
      && (i == 0 ==> CursorBit(r) == 0)
      && (i > 0 && OwnMember(s, i - 1) ==> CursorBit(r) == Hi(s, i - 1))
      && forall g :: 0 <= g < |s.groups| && s.groups[g].first + s.groups[g].count == i
           ==> CursorBit(r) == BlockEnd(s.groups[g])
  }

  lemma StartsAtEndIff(s: Layout, i: nat, g: nat, r: Layout)
    requires Lists(s) && i < |s.members| && Ends(s, i, r) && !s.cfg.microsoft && !s.cfg.isUnion
    requires GroupsOrdered(s) && Synced(s, i, g) && GroupsEnded(s, i, g)
    ensures StartsAtEnd(s, i) <==> Lo(s, i) == CursorBit(r)
  {
    if i > 0 && !OwnMember(s, i - 1) {
      var h :| 0 <= h < |s.groups| && InGroup(s, h, i - 1);
      if h >= g { GroupsFollow(s, g, h); }
    }
    hide Lo, Hi, CursorBit, OwnMember;
  }

  lemma OwnCursor(r: Layout, d: Decl)
    requires d.Own? && !r.cfg.microsoft && !r.cfg.isUnion && ScratchKeysBelow(r)
    requires d.isBits ==> 0 < d.width
    ensures var q, n := Step(r, d), |r.members|;
            Lists(q) && |q.members| == n + 1 && CursorBit(q) == Hi(q, n)
  {
    var c := UnderPack(r, d.packed);
    AddOwnGrows(r, d);
    AddOwnKeepsAttributes(r, d);
    AddContinues(c, d);
    if d.isBits { FieldCursor(c, d.m.name, d.m.ty, d.width); } else { MemberCursor(c, d.m); }
    assert AddedEnds(AddOwn(r, d), |r.members|) by { hide AddBitField, AddMember; }
    hide AddOwn, UnderPack;
    AlignedEnds(AddOwn(r, d), d.align);
  }

  /** The last member, number n, ends at the cursor: a plain one with the run closed. */
  ghost predicate AddedEnds(a: Layout, n: nat) {
    && Lists(a) && |a.members| == n + 1 && !a.cfg.isUnion && CursorBit(a) == Hi(a, n)
    && (if a.bits[n].isBitField then a.active else !a.active)
  }

  lemma MemberCursor(r: Layout, m: Member)
    requires !r.cfg.isUnion && Lists(r)
    ensures AddedEnds(AddMember(r, m), |r.members|)
  {
    hide AlignUp, FieldAlign, MemberBytes;
  }

  lemma FieldCursor(r: Layout, name: string, ty: FieldType, width: nat)
    requires !r.cfg.isUnion && !r.cfg.microsoft && Lists(r) && width > 0
    ensures AddedEnds(AddBitField(r, name, ty, width), |r.members|)
  {
    OpenSysV(r, ty, width);
    var o := OpenField(r, ty, width);
    hide OpenField, SysVBit, SysVWindow, BitStorage, FieldAlign;
    assert AddBitField(r, name, ty, width).bits[|r.bits|] == FieldInfo(o, ty, width);
  }

  lemma AlignedEnds(a: Layout, align: nat)
    requires |a.members| > 0 && AddedEnds(a, |a.members| - 1)
    ensures AddedEnds(ApplyMemberAlignment(a, align), |a.members| - 1)
  {
    hide AlignUp, MemberBytes;
  }

  lemma NoGroupEnds(s: Layout, i: nat)
    requires WellFormed(s) && OwnMember(s, i)
    ensures forall h :: 0 <= h < |s.groups| ==> s.groups[h].first + s.groups[h].count != i + 1
  {
    forall h | 0 <= h < |s.groups| ensures s.groups[h].first + s.groups[h].count != i + 1 {
      assert GroupFits(s, s.groups[h]) && !InGroup(s, h, i);
    }
  }

  lemma EndsOwn(s: Layout, i: nat, g: nat, r: Layout)
    requires WellFormed(s) && Walking(s, i, g, r) && Lists(s) && i < |s.members| && WalksOwn(s, i, g, r)
    requires s.bits[i].isBitField ==> s.bits[i].bitWidth > 0
    ensures Ends(s, i + 1, Step(r, OwnAt(s, i)))
  {
    hide Walking, Step, LegalDecl, CursorBit, WellFormed, Placed;
    var d := OwnAt(s, i);
    NoGroupEnds(s, i);
    WalkReplay(s, i, g, r);
    hide OwnMember;
    if !s.cfg.microsoft && !s.cfg.isUnion {
      OwnCursor(r, d);
      assert Hi(Step(r, d), i) == Hi(s, i);
    }
  }

  lemma WalkReplay(s: Layout, i: nat, g: nat, r: Layout)
    requires Walking(s, i, g, r)
    ensures r.cfg == s.cfg && ScratchKeysBelow(r) && |r.members| == i
  {}

  lemma OnlyGroupEnds(s: Layout, i: nat, g: nat)
    requires WellFormed(s) && Synced(s, i, g) && GroupsEnded(s, i, g) && g < |s.groups| && s.groups[g].first == i
    ensures s.groups[g].count > 0 && !OwnMember(s, i + s.groups[g].count - 1)
    ensures forall h :: 0 <= h < |s.groups| && s.groups[h].first + s.groups[h].count == i + s.groups[g].count ==> h == g
  {
    assert GroupFits(s, s.groups[g]);
    assert InGroup(s, g, i + s.groups[g].count - 1);
    forall h | 0 <= h < |s.groups| && s.groups[h].first + s.groups[h].count == i + s.groups[g].count ensures h == g {
      assert GroupFits(s, s.groups[h]);
      if h > g { GroupsFollow(s, g + 1, h); }
    }
  }

  lemma EndsAnon(s: Layout, i: nat, g: nat, r: Layout)
    requires WellFormed(s) && Synced(s, i, g) && GroupsEnded(s, i, g) && g < |s.groups| && WalksAnon(s, i, g, r)
    requires r.cfg == s.cfg
    ensures Ends(s, i + s.groups[g].count, Step(r, Anon(s.groups[g].agg)))
  {
    hide WellFormed, Synced, GroupsEnded, Step, Walking, LegalDecl, CursorBit, OwnMember, Fold, Decls, DeclFits;
    var gr := s.groups[g];
    OnlyGroupEnds(s, i, g);
    AnonCursor(r, gr.agg);
    assert Step(r, Anon(gr.agg)).groups[g] == s.groups[..g + 1][g] == gr;
  }

  lemma AnonCursor(r: Layout, agg: Layout)
    requires |agg.members| > 0
    ensures var q := Step(r, Anon(agg));
            |q.groups| == |r.groups| + 1 && (!r.cfg.isUnion ==> CursorBit(q) == BlockEnd(q.groups[|r.groups|]))
  {
    hide AlignUp, AggAlign, ShiftKeys, ShiftSet, Shifted, MovedAll;
  }

  // ----- the exact condition

  lemma OwnSafeIff(s: Layout, i: nat, g: nat, r: Layout)
    requires WellFormed(s) && Walking(s, i, g, r) && Lists(s) && i < |s.members| && WalksOwn(s, i, g, r)
    requires Ends(s, i, r) && GroupsOrdered(s) && Synced(s, i, g) && GroupsEnded(s, i, g)
    ensures FlipSafe(s, i) <==> FlipFits(r, OwnAt(s, i))
  {
    hide Step, CursorBit, WellFormed, Placed, StartsAtEnd, InOwnUnit, Ends, Entry;
    var d := OwnAt(s, i);
    WalkReplay(s, i, g, r);
    hide Walking;
    if d.isBits && OrderPlaces(s.cfg, d.packed) && d.width > 0 {
      assert d.width <= 8 * BitStorage(d.m.ty);
      StepEntry(r, d);
      EntryShows(r, d);
      StartsAtEndIff(s, i, g, r);
    }
  }

  predicate SameOrder(a: BitField, b: BitField) {
    a.isBitField == b.isBitField && (a.isBitField ==> a.reverse == b.reverse)
  }

  lemma AnonBits(s: Layout, i: nat, g: nat, r: Layout)
    requires g < |s.groups| && WalksAnon(s, i, g, r)
    ensures |s.groups[g].agg.bits| == s.groups[g].count && i + s.groups[g].count <= |s.bits|
    ensures forall k :: i <= k < i + s.groups[g].count ==> SameOrder(s.bits[k], s.groups[g].agg.bits[k - i])
  {
    hide Walking, LegalDecl, AlignUp, ShiftKeys, ShiftSet;
    var gr := s.groups[g];
    var q := Step(r, Anon(gr.agg));
    forall k | i <= k < i + gr.count ensures s.bits[k] == q.bits[k] {
      assert q.bits[k] == s.bits[..i + gr.count][k];
    }
  }

  lemma FlattenedSafe(s: Layout, g: nat, k: nat)
    requires Lists(s) && k < |s.members| && g < |s.groups| && InGroup(s, g, k)
    ensures FlipSafe(s, k) <==> (s.bits[k].isBitField ==> s.bits[k].reverse == !s.cfg.reverse)
  {}

  lemma AnonSafeIff(s: Layout, i: nat, g: nat, r: Layout)
    requires WellFormed(s) && Walking(s, i, g, r) && g < |s.groups| && WalksAnon(s, i, g, r)
    ensures (forall k :: i <= k < i + s.groups[g].count ==> FlipSafe(s, k)) <==> FlipFits(r, Anon(s.groups[g].agg))
  {
    var n, bits := s.groups[g].count, s.groups[g].agg.bits;
    WalkReplay(s, i, g, r);
    AnonBits(s, i, g, r);
    hide Walking, WellFormed, Placed, FlipSafe;
    forall k | i <= k < i + n
      ensures FlipSafe(s, k) <==> (bits[k - i].isBitField ==> bits[k - i].reverse == !s.cfg.reverse)
    {
      FlattenedSafe(s, g, k);
      assert SameOrder(s.bits[k], bits[k - i]);
    }
    if forall k :: i <= k < i + n ==> FlipSafe(s, k) {
      forall j | 0 <= j < n && bits[j].isBitField ensures bits[j].reverse == !s.cfg.reverse {
        assert FlipSafe(s, i + j);
      }
    }
    if FieldsIn(bits, !s.cfg.reverse) {
      forall k | i <= k < i + n ensures FlipSafe(s, k) {
        assert bits[k - i].isBitField ==> bits[k - i].reverse == !s.cfg.reverse;
      }
    }
  }

  /** Bit n, once placed differently by the two orders, stays so. */
  lemma DifferenceStays(q: Layout, f: Layout, ds: seq<Decl>, n: nat, o: bool)
    requires ScratchKeysBelow(q) && ScratchKeysBelow(f) && forall d :: d in ds ==> DeclFits(d)
    requires n < |q.bits| && n < |f.bits| && f.bits[n] != Flipped(q.bits[n], o)
    ensures Fold(f, ds).bits != FlippedAll(Fold(q, ds).bits, o)
  {
    hide Fold, DeclFits, ScratchKeysBelow;
    FoldContinues(q, ds);
    FoldContinues(f, ds);
    assert Fold(q, ds).bits[n] == Fold(q, ds).bits[..|q.bits|][n];
    assert Fold(f, ds).bits[n] == Fold(f, ds).bits[..|f.bits|][n];
  }

  lemma FlippedScratch(r: Layout, o: bool)
    requires ScratchKeysBelow(r)
    ensures ScratchKeysBelow(SetReverse(r, o))
  {}

  /** What the walk proves from member i on. */
  ghost predicate FlipsFrom(s: Layout, i: nat, g: nat, r: Layout)
    requires Lists(s)
  {
    var o, ds := !s.cfg.reverse, Decls(s, i, g);
    && ((forall k :: i <= k < |s.members| ==> FlipSafe(s, k))
        ==> Fold(SetReverse(r, o), ds) == SetReverse(Fold(r, ds), o))
    && (Fold(SetReverse(r, o), ds).bits == FlippedAll(Fold(r, ds).bits, o)
        ==> forall k :: i <= k < |s.members| ==> FlipSafe(s, k))
  }

  /** Both replays take declaration d and go on from member `next`. */
  ghost predicate BothStep(s: Layout, i: nat, g: nat, r: Layout, d: Decl, next: nat, h: nat) {
    var f := SetReverse(r, !s.cfg.reverse);
    && i <= next && Fold(r, Decls(s, i, g)) == Fold(Step(r, d), Decls(s, next, h))
    && Fold(f, Decls(s, i, g)) == Fold(Step(f, d), Decls(s, next, h))
  }

  lemma SafeUnit(s: Layout, i: nat, g: nat, r: Layout, d: Decl, next: nat, h: nat)
    requires Lists(s) && BothStep(s, i, g, r, d, next, h) && next <= |s.members|
    requires Step(SetReverse(r, !s.cfg.reverse), d) == SetReverse(Step(r, d), !s.cfg.reverse)
    requires FlipsFrom(s, next, h, Step(r, d)) && forall k :: i <= k < next ==> FlipSafe(s, k)
    ensures FlipsFrom(s, i, g, r)
  {
    hide Step, Fold, Decls, SetReverse, FlippedAll, FlipSafe, Lists;
  }

  lemma UnsafeUnit(s: Layout, i: nat, g: nat, r: Layout, d: Decl, next: nat, h: nat, n: nat)
    requires WellFormed(s) && Lists(s) && BothStep(s, i, g, r, d, next, h) && next <= |s.members|
    requires ScratchKeysBelow(r) && DeclFits(d)
    requires var q, f := Step(r, d), Step(SetReverse(r, !s.cfg.reverse), d);
             n < |q.bits| && n < |f.bits| && f.bits[n] != Flipped(q.bits[n], !s.cfg.reverse)
    requires !forall k :: i <= k < next ==> FlipSafe(s, k)
    ensures FlipsFrom(s, i, g, r)
  {
    hide Step, Fold, Decls, SetReverse, FlippedAll, FlipSafe, Lists, WellFormed, ScratchKeysBelow, DeclFits, Flipped;
    var o := !s.cfg.reverse;
    DeclsFit(s, next, h);
    FlippedScratch(r, o);
    StepKeys(r, d);
    StepKeys(SetReverse(r, o), d);
    DifferenceStays(Step(r, d), Step(SetReverse(r, o), d), Decls(s, next, h), n, o);
  }

  lemma OwnFlips(s: Layout, i: nat, g: nat, r: Layout)
    requires Walking(s, i, g, r) && i < |s.members| && Lists(s) && |s.bits| == |s.offsets| == |s.members|
    requires WalksOwn(s, i, g, r) && Ends(s, i, r)
    requires FlipSafe(s, i) ==> FlipsFrom(s, i + 1, g, Step(r, OwnAt(s, i)))
    requires BothStep(s, i, g, r, OwnAt(s, i), i + 1, g)
    ensures FlipsFrom(s, i, g, r)
  {
    hide *;
    var d := OwnAt(s, i);
    WalkFacts(s, i, g, r);
    WalkOwnFacts(s, i, g, r);
    OwnSafeIff(s, i, g, r);
    if FlipSafe(s, i) {
      StepFlipped(r, d);
      SafeUnit(s, i, g, r, d, i + 1, g);
    } else {
      OwnDiffers(r, d);
      UnsafeUnit(s, i, g, r, d, i + 1, g, |r.bits|);
    }
  }

  lemma AnonFlips(s: Layout, i: nat, g: nat, r: Layout)
    requires Walking(s, i, g, r) && Lists(s) && g < |s.groups| && WalksAnon(s, i, g, r)
    requires var d, next := Anon(s.groups[g].agg), i + s.groups[g].count;
             next <= |s.members| && FlipsFrom(s, next, g + 1, Step(r, d)) && BothStep(s, i, g, r, d, next, g + 1)
    ensures FlipsFrom(s, i, g, r)
  {
    hide *;
    var d, next := Anon(s.groups[g].agg), i + s.groups[g].count;
    WalkFacts(s, i, g, r);
    WalkAnonFacts(s, i, g, r);
    AnonSafeIff(s, i, g, r);
    if FlipFits(r, d) {
      StepFlipped(r, d);
      SafeUnit(s, i, g, r, d, next, g + 1);
    } else {
      NotFlipping(r, s.groups[g].agg);
      var k := AnonDiffers(r, s.groups[g].agg);
      UnsafeUnit(s, i, g, r, d, next, g + 1, |r.bits| + k);
    }
  }

  lemma NotFlipping(r: Layout, agg: Layout)
    ensures FlipFits(r, Anon(agg)) <==> FieldsIn(agg.bits, !r.cfg.reverse)
  {}

  lemma {:induction false} FlipWalk(s: Layout, i: nat, g: nat, r: Layout)
    requires WellFormed(s) && Lists(s) && GroupsOrdered(s) && i <= |s.members|
    requires Walking(s, i, g, r) && Ends(s, i, r)
    ensures FlipsFrom(s, i, g, r)
    decreases |s.members| - i
  {
    hide *;
    var o := !s.cfg.reverse;
    if i == |s.members| {
      FoldDone(s, g, r);
      FoldDone(s, g, SetReverse(r, o));
      FlipsNothing(s, g, r);
    } else {
      WalkFacts(s, i, g, r);
      RebuildsUnit(s, i, g, r);
      if GroupStarts(s, i, g) {
        WalkAnon(s, i, g, r);
        WalkAnonFacts(s, i, g, r);
        EndsAnon(s, i, g, r);
        FlipWalk(s, i + s.groups[g].count, g + 1, Step(r, Anon(s.groups[g].agg)));
        FoldUnitAnon(s, i, g, SetReverse(r, o));
        BothStepFrom(s, i, g, r, Anon(s.groups[g].agg), i + s.groups[g].count, g + 1);
        AnonFlips(s, i, g, r);
      } else {
        WalkOwn(s, i, g, r);
        WalkOwnFacts(s, i, g, r);
        if FlipSafe(s, i) {
          SafeHasWidth(s, i, g, r);
          EndsOwn(s, i, g, r);
          FlipWalk(s, i + 1, g, Step(r, OwnAt(s, i)));
        }
        FoldUnitOwn(s, i, g, SetReverse(r, o));
        BothStepFrom(s, i, g, r, OwnAt(s, i), i + 1, g);
        OwnFlips(s, i, g, r);
      }
    }
  }

  lemma BothStepFrom(s: Layout, i: nat, g: nat, r: Layout, d: Decl, next: nat, h: nat)
    requires i <= next && Fold(r, Decls(s, i, g)) == Fold(Step(r, d), Decls(s, next, h))
    requires var f := SetReverse(r, !s.cfg.reverse);
             Fold(f, Decls(s, i, g)) == Fold(Step(f, d), Decls(s, next, h))
    ensures BothStep(s, i, g, r, d, next, h)
  {
    hide Fold, Decls, Step, SetReverse;
  }

  lemma FlipsNothing(s: Layout, g: nat, r: Layout)
    requires Lists(s) && Fold(r, Decls(s, |s.members|, g)) == r
    requires var o := !s.cfg.reverse; Fold(SetReverse(r, o), Decls(s, |s.members|, g)) == SetReverse(r, o)
    ensures FlipsFrom(s, |s.members|, g, r)
  {}

  lemma SafeHasWidth(s: Layout, i: nat, g: nat, r: Layout)
    requires Lists(s) && i < |s.members| && WalksOwn(s, i, g, r) && FlipSafe(s, i)
    ensures s.bits[i].isBitField ==> s.bits[i].bitWidth > 0
  {}

  lemma EndsStart(s: Layout, r: Layout)
    requires WellFormed(s) && Lists(s) && CursorBit(r) == 0
    ensures Ends(s, 0, r)
  {
    forall g | 0 <= g < |s.groups| ensures s.groups[g].count > 0 { assert GroupFits(s, s.groups[g]); }
  }

  /** Flipping a laid-out record to the other order gives the record declared in that order from its
      first member on, exactly when every member is flip-safe. */
  lemma LateOrderIsEarlyIff(cfg: Config, ops: seq<Op>)
    requires LegalConfig(cfg) && Replayable(Empty(cfg), ops) && LegalOps(ops)
    ensures var s, o := Run(Empty(cfg), ops), !cfg.reverse;
            && Lists(s)
            && (SetReverse(s, o) == Run(Empty(cfg.(reverse := o)), ops)
                <==> forall i :: 0 <= i < |s.members| ==> FlipSafe(s, i))
  {
    var s, o := Run(Empty(cfg), ops), !cfg.reverse;
    var e := Empty(cfg).(size := 0);
    WalkStart(cfg, ops);
    WalkFacts(s, 0, 0, e);
    EndsStart(s, e);
    FlipWalk(s, 0, 0, e);
    ReplaysOfOrders(cfg, ops);
    hide Run, Replay, Fold, Decls, FlipSafe, Walking, WellFormed, Ends;
  }

  /** Both records are their replays of the same declarations, with the same attributes. */
  lemma ReplaysOfOrders(cfg: Config, ops: seq<Op>)
    requires Replayable(Empty(cfg), ops)
    ensures var s, o := Run(Empty(cfg), ops), !cfg.reverse;
            var t, e := Run(Empty(cfg.(reverse := o)), ops), Empty(cfg).(size := 0);
            && Agrees(Fold(e, Decls(s, 0, 0)), s)
            && t == Tagged(Fold(SetReverse(e, o), Decls(s, 0, 0)), s.explicitAlign, s.packed, s.tagAlign)
  {
    var o := !cfg.reverse;
    var other := cfg.(reverse := o);
    var s, t := Run(Empty(cfg), ops), Run(Empty(other), ops);
    EmptyConsistent(cfg);
    EmptyConsistent(other);
    RunAlike(Empty(cfg), Empty(other), ops);
    RunConsistent(Empty(cfg), ops);
    RunConsistent(Empty(other), ops);
    RunConfig(Empty(cfg), ops);
    RunConfig(Empty(other), ops);
    SameDeclsReplay(s, t, 0, 0);
    assert SetReverse(Empty(cfg).(size := 0), o) == Empty(other).(size := 0);
    assert t == Tagged(Replay(t, 0), t.explicitAlign, t.packed, t.tagAlign);
    hide Run, Fold, Decls;
  }

  /** A packed `int a : 4; int b : 32;`, laid out forward and then reversed: b straddles two units
      and its offset in the first wraps below 0, where an early flag gives it a unit of its own. */
  lemma StraddlingFlipBreaks()
    ensures var int32 := FieldType(4, 4, false, false, false);
            var packed := Config(false, 1, 0, false, false);
            var ops := [OpBits("a", int32, 4), OpBits("b", int32, 32)];
            var s, t := Run(Empty(packed), ops), Run(Empty(packed.(reverse := true)), ops);
            && Replayable(Empty(packed), ops) && |s.bits| == |t.bits| == 2
            && SetReverse(s, true).bits[1].storageOffset == 0 && SetReverse(s, true).bits[1].bitOffset == -4
            && t.bits[1].storageOffset == 4 && t.bits[1].bitOffset == 0
  {
    hide Run, Replayable, Apply, ReplayableOp, SetReverse;
    var int32 := FieldType(4, 4, false, false, false);
    var a, b := OpBits("a", int32, 4), OpBits("b", int32, 32);
    var packed := Config(false, 1, 0, false, false);
    TwoOps(Empty(packed), a, b);
    TwoOps(Empty(packed.(reverse := true)), a, b);
    TwoFields(packed, int32, a, b);
  }

  lemma TwoFields(packed: Config, int32: FieldType, a: Op, b: Op)
    requires int32 == FieldType(4, 4, false, false, false) && packed == Config(false, 1, 0, false, false)
    requires a == OpBits("a", int32, 4) && b == OpBits("b", int32, 32)
    ensures ReplayableOp(Empty(packed), a) && ReplayableOp(Apply(Empty(packed), a), b)
    ensures var s, t := Apply(Apply(Empty(packed), a), b), Apply(Apply(Empty(packed.(reverse := true)), a), b);
            && |s.bits| == |t.bits| == 2
            && SetReverse(s, true).bits[1].storageOffset == 0 && SetReverse(s, true).bits[1].bitOffset == -4
            && t.bits[1].storageOffset == 4 && t.bits[1].bitOffset == 0
  {
    NarrowField(packed, int32);
    NarrowField(packed.(reverse := true), int32);
    var s, t := Apply(Empty(packed), a), Apply(Empty(packed.(reverse := true)), a);
    hide AddBitField;
    WideField(s, int32);
    WideField(t, int32);
  }

  lemma NarrowField(packed: Config, int32: FieldType)
    requires int32 == FieldType(4, 4, false, false, false) && packed.pack == 1
    requires !packed.microsoft && !packed.isUnion
    ensures var s := AddBitField(Empty(packed), "a", int32, 4);
            s.cfg == packed && |s.bits| == 1 && s.previousBits && CursorBit(s) == 4
  {}

  lemma WideField(s: Layout, int32: FieldType)
    requires int32 == FieldType(4, 4, false, false, false) && s.cfg.pack == 1
    requires !s.cfg.microsoft && !s.cfg.isUnion && |s.bits| == 1 && s.previousBits && CursorBit(s) == 4
    ensures var r := AddBitField(s, "b", int32, 32);
            && r.cfg == s.cfg && |r.bits| == 2 && r.bits[1].isBitField && r.bits[1].bitWidth == 32
            && r.bits[1].storageSize == 4
            && r.bits[1].storageOffset == (if s.cfg.reverse then 4 else 0)
            && r.bits[1].bitOffset == (if s.cfg.reverse then 0 else 4)
  {}

  lemma TwoOps(s: Layout, a: Op, b: Op)
    ensures Run(s, [a, b]) == Apply(Apply(s, a), b)
    ensures ReplayableOp(s, a) && ReplayableOp(Apply(s, a), b) ==> Replayable(s, [a, b])
  {
    assert [a, b][1..] == [b] && [b][1..] == [];
    hide Apply, ReplayableOp;
    assert Run(s, [a, b]) == Run(Apply(s, a), [b]) == Run(Apply(Apply(s, a), b), []);
    assert Replayable(Apply(s, a), [b]) == (ReplayableOp(Apply(s, a), b) && Replayable(Apply(Apply(s, a), b), []));
  }

  /** A `:0` differs as well: a late flip gives it a bit offset, an early flag does not. */
  lemma ZeroWidthFlipsDiffer()
    ensures var int32 := FieldType(4, 4, false, false, false);
            var sysV := Config(false, 0, 0, false, false);
            var ops := [OpBits("", int32, 0)];
            && Replayable(Empty(sysV), ops)
            && SetReverse(Run(Empty(sysV), ops), true).bits[0].bitOffset == 32
            && Run(Empty(sysV.(reverse := true)), ops).bits[0].bitOffset == 0
  {
    var int32 := FieldType(4, 4, false, false, false);
    var sysV := Config(false, 0, 0, false, false);
    var op := OpBits("", int32, 0);
    assert [op][1..] == [];
    forall cfg ensures Run(Empty(cfg), [op]) == AddBoundary(Empty(cfg), int32) {
      assert Run(Empty(cfg), [op]) == Run(Apply(Empty(cfg), op), []);
    }
  }
}
