/** Bit-field access: which unit a field is read through, and why the unit lies in the record. */
module Windows {
  import opened Alignment
  import opened RecordLayout
  import opened ReplayedLayout
  import opened Agreement
  import opened Placement

  // ----- System V: the least legal bit

  /** A `width`-bit field starting at `bit` leaves its `unit`-bit window. */
  predicate Crosses(bit: nat, width: nat, unit: nat)
    requires unit != 0
  {
    bit % unit + width > unit
  }

  /** Every start between the cursor and the chosen bit would cross a window. */
  lemma SkippedStartsCross(cursor: nat, unit: nat, width: nat, bit: nat)
    requires unit != 0 && Crosses(cursor, width, unit) && cursor <= bit < AlignUp(cursor, unit)
    ensures Crosses(bit, width, unit)
  {
    var base := cursor - cursor % unit;
    BaseIsMultiple(cursor, unit);
    DivUnique(base + unit, unit, cursor / unit + 1, 0);
    AlignUpLeast(cursor, unit, base + unit);
    DivUnique(bit, unit, cursor / unit, bit - base);
  }

  lemma BaseIsMultiple(x: nat, unit: nat)
    requires unit != 0
    ensures x - x % unit == x / unit * unit && x - x % unit + unit == (x / unit + 1) * unit
  {}

  lemma SysVPlaces(cfg: Config, cursor: nat, storage: nat, width: nat)
    requires !Straddles(cfg) && 0 < width <= storage * 8
    ensures var unit := storage * 8;
            var bit := SysVBit(cfg, cursor, unit, width);
            var window := SysVWindow(cfg, bit, storage, width);
            && cursor <= bit && !Crosses(bit, width, unit)
            && (forall b :: cursor <= b < bit ==> Crosses(b, width, unit))
            && window % storage == 0 && bit - window * 8 + width <= unit
  {
    var unit := storage * 8;
    var bit := SysVBit(cfg, cursor, unit, width);
    if Crosses(cursor, width, unit) {
      AlignUpRounds(cursor, unit);
      forall b | cursor <= b < bit ensures Crosses(b, width, unit) { SkippedStartsCross(cursor, unit, width, b); }
    }
    hide AlignUp;
    WindowBelow(bit, storage);
    DivUnique(bit / unit * storage, storage, bit / unit, 0);
  }

  lemma OpenAtLeastLegalBit(r: Layout, ty: FieldType, width: nat)
    requires !r.cfg.microsoft && !Straddles(r.cfg) && 0 < width <= 8 * BitStorage(ty)
    ensures var q := OpenField(r, ty, width);
            var unit := 8 * BitStorage(ty);
            var bit := 8 * q.unitOffset + q.nextBit;
            && q.cfg == r.cfg && CursorBit(r) <= bit && !Crosses(bit, width, unit)
            && (forall b :: CursorBit(r) <= b < bit ==> Crosses(b, width, unit))
            && q.unitOffset % BitStorage(ty) == 0 && q.nextBit + width <= unit
  {
    var cursor, storage := CursorBit(if r.cfg.isUnion then EndRun(r) else r), BitStorage(ty);
    assert cursor == CursorBit(r);
    SysVPlaces(r.cfg, cursor, storage, width);
    hide SysVBit, SysVWindow, Crosses, Straddles;
    var bit := SysVBit(r.cfg, cursor, storage * 8, width);
    var q := OpenField(r, ty, width);
    assert 8 * q.unitOffset + q.nextBit == bit;
  }

  /** Without straddling, a System V bit-field starts at the smallest bit at or after the cursor
      from which it stays in one window of its own type; it is recorded in that window. */
  lemma LeastLegalBit(r: Layout, name: string, ty: FieldType, width: nat)
    requires !r.cfg.microsoft && !Straddles(r.cfg) && 0 < width <= 8 * BitStorage(ty)
    ensures var info := AddBitField(r, name, ty, width).bits[|r.bits|];
            var unit := 8 * BitStorage(ty);
            var bit := 8 * info.storageOffset + Forward(info);
            && info.isBitField && info.bitWidth == width && info.storageSize == BitStorage(ty)
            && info.storageOffset >= 0 && info.storageOffset % info.storageSize == 0
            && 0 <= Forward(info) && Forward(info) + width <= unit
            && CursorBit(r) <= bit && !Crosses(bit, width, unit)
            && (forall b :: CursorBit(r) <= b < bit ==> Crosses(b, width, unit))
  {
    OpenAtLeastLegalBit(r, ty, width);
    var q := OpenField(r, ty, width);
    hide OpenField, Crosses, CursorBit;
    assert AddBitField(r, name, ty, width).bits[|r.bits|] == FieldInfo(q, ty, width);
  }

  // ----- Microsoft: shared units

  predicate SharesUnit(r: Layout, storage: nat, width: nat) {
    !r.cfg.isUnion && r.active && r.unitSize == storage && r.nextBit + width <= 8 * storage
  }

  /** `at` is the first byte at or after `from` that is a multiple of `align`. */
  ghost predicate FirstAligned(from: nat, align: nat, at: int)
    requires align != 0
  {
    from <= at && at % align == 0 && forall o: nat :: from <= o && o % align == 0 ==> at <= o
  }

  lemma AlignUpIsFirst(from: nat, align: nat)
    requires align != 0
    ensures FirstAligned(from, align, AlignUp(from, align))
  {
    AlignUpRounds(from, align);
    forall o: nat | from <= o && o % align == 0 ensures AlignUp(from, align) <= o { AlignUpLeast(from, align, o); }
  }

  /** A Microsoft bit-field continues the open unit exactly while the storage sizes agree and it
      fits; otherwise it takes the low bits of a new unit on the first suitable byte, and the
      record is aligned for that unit. Its unit lies in the record either way. */
  lemma MicrosoftUnit(r: Layout, name: string, ty: FieldType, width: nat)
    requires r.cfg.microsoft && CursorInside(r) && 0 < width <= 8 * BitStorage(ty)
    ensures var q, storage, fa := AddBitField(r, name, ty, width), BitStorage(ty), FieldAlign(r.cfg, ty);
            var info := q.bits[|r.bits|];
            && info.storageSize == storage && info.storageOffset + storage <= q.size
            && (if SharesUnit(r, storage, width)
                then info.storageOffset == r.unitOffset && Forward(info) == r.nextBit
                     && q.size == r.size && q.maxAlign == r.maxAlign
                else Forward(info) == 0 && q.maxAlign == Max(r.maxAlign, fa)
                     && if r.cfg.isUnion then info.storageOffset == 0
                        else fa != 0 && FirstAligned(r.size, fa, info.storageOffset)
                             && q.size == info.storageOffset + storage)
  {
    var fa := FieldAlign(r.cfg, ty);
    AlignUpIsFirst(r.size, fa);
    hide AlignUp, FieldAlign, BitStorage, FirstAligned;
    var o := OpenField(r, ty, width);
    assert AddBitField(r, name, ty, width).bits[|r.bits|] == FieldInfo(o, ty, width);
  }

  // ----- `:0`

  /** What `:0` is a boundary of, or 1 where it is none: after a member that is no bit-field the
      Microsoft rules skip it. */
  function Boundary(r: Layout, ty: FieldType): nat {
    if r.cfg.isUnion || (r.cfg.microsoft && !r.previousBits) then 1
    else if r.cfg.microsoft then FieldAlign(r.cfg, ty) else NaturalAlign(ty)
  }

  /** After a `:0` the record goes on at the first boundary of the type; only the Microsoft rules
      raise the record's alignment, as far as #pragma pack lets them; and the next bit-field starts
      at or after the boundary. */
  lemma BoundarySeparates(r: Layout, ty: FieldType, name: string, next: FieldType, width: nat)
    requires CursorInside(r) && 0 < width <= 8 * BitStorage(next)
    ensures var q := AddBitField(r, "", ty, 0);
            && Boundary(r, ty) != 0 && FirstAligned(r.size, Boundary(r, ty), q.size) && !q.active
            && q.maxAlign == (if r.cfg.microsoft && r.previousBits && !r.cfg.isUnion
                              then Max(r.maxAlign, Capped(NaturalAlign(ty), r.cfg.pragmaPack)) else r.maxAlign)
            && (!r.cfg.isUnion ==>
                  var info := AddBitField(q, name, next, width).bits[|q.bits|];
                  8 * q.size <= 8 * info.storageOffset + Forward(info))
  {
    AlignUpIsFirst(r.size, Boundary(r, ty));
    AlignUpFixed(r.size, 1);
    var q := AddBitField(r, "", ty, 0);
    assert q == AddBoundary(r, ty);
    assert CursorInside(q);
    OpenFieldPlaces(q, next, width);
    var o := OpenField(q, next, width);
    hide OpenField, AddBoundary, FirstAligned, AlignUp;
    assert !(name == "" && width == 0);
    assert AddBitField(q, name, next, width).bits[|q.bits|] == FieldInfo(o, next, width);
  }

  // ----- every access stays inside the finalized record

  ghost predicate OwnMember(s: Layout, i: nat) {
    forall g :: 0 <= g < |s.groups| ==> !InGroup(s, g, i)
  }

  /** Whether the rules promise member i a whole storage unit: any Microsoft bit-field, and a
      System V one whose aggregate and member are unpacked and whose type is aligned to its unit. */
  ghost predicate Windowed(s: Layout, i: nat)
    requires i < |s.members| && i < |s.bits|
  {
    && s.bits[i].isBitField && s.bits[i].bitWidth > 0
    && (s.cfg.microsoft ||
        (s.cfg.pack == 0 && i !in s.packed && NaturalAlign(s.members[i].ty) % BitStorage(s.members[i].ty) == 0))
  }

  /** What the layout establishes for such a member before finalize(). */
  ghost predicate Reserved(r: Layout, ty: FieldType, info: BitField) {
    && info.storageOffset >= 0 && info.storageSize == BitStorage(ty)
    && if r.cfg.microsoft then info.storageOffset + info.storageSize <= r.size
       else info.storageOffset % info.storageSize == 0 && info.storageOffset < r.size
            && NaturalAlign(ty) <= r.maxAlign
  }

  lemma AddBitsReserves(r: Layout, name: string, ty: FieldType, width: nat)
    requires CursorInside(r) && 0 < width <= 8 * BitStorage(ty) && (r.cfg.microsoft || r.cfg.pack == 0)
    ensures var q := AddBitField(r, name, ty, width); Reserved(q, ty, q.bits[|r.bits|])
  {
    OpenFieldPlaces(r, ty, width);
    var o := OpenField(r, ty, width);
    if !r.cfg.microsoft {
      LeastLegalBit(r, name, ty, width);
      assert o.maxAlign >= NaturalAlign(ty);
    }
    hide OpenField;
    var q := AddBitField(r, name, ty, width);
    assert q.bits[|r.bits|] == FieldInfo(o, ty, width);
  }

  lemma AlignGrows(r: Layout, align: nat)
    ensures ApplyMemberAlignment(r, align).size >= r.size && ApplyMemberAlignment(r, align).maxAlign >= r.maxAlign
  {}

  lemma StepReserves(r: Layout, d: Decl)
    requires CursorInside(r) && Lists(r) && d.Own? && d.isBits && LegalDecl(d) && d.width > 0
    requires r.cfg.microsoft || (r.cfg.pack == 0 && !d.packed)
    ensures var q := Step(r, d); Reserved(q, d.m.ty, q.bits[|r.bits|])
  {
    hide AddBitField, ApplyMemberAlignment;
    var c := UnderPack(r, d.packed);
    AddBitsReserves(c, d.m.name, d.m.ty, d.width);
    AlignKeepsShape(AddOwn(r, d), d.align);
    AddGrows(c, d);
    AddOwnGrows(r, d);
    AlignGrows(AddOwn(r, d), d.align);
  }

  /** The windowed own members of `s` among the first i are reserved in `r`. */
  ghost predicate AllReserved(s: Layout, i: nat, r: Layout)
    requires i <= |s.members| && i <= |s.bits| && i <= |r.bits|
  {
    forall k :: 0 <= k < i && OwnMember(s, k) && Windowed(s, k) ==> Reserved(r, s.members[k].ty, r.bits[k])
  }

  lemma AllReservedKept(s: Layout, i: nat, r: Layout, q: Layout)
    requires i <= |s.members| && i <= |s.bits| && i <= |r.bits| && i <= |q.bits| && AllReserved(s, i, r)
    requires q.cfg == r.cfg && q.size >= r.size && q.maxAlign >= r.maxAlign
    requires forall k :: 0 <= k < i ==> q.bits[k] == r.bits[k]
    ensures AllReserved(s, i, q)
  {}

  lemma AnonKeepsBits(r: Layout, agg: Layout)
    ensures var q := AddAnonymous(r, agg);
            && q.cfg == r.cfg && q.size >= r.size && |q.bits| >= |r.bits|
            && forall k :: 0 <= k < |r.bits| ==> q.bits[k] == r.bits[k]
  {}

  /** Everything a replay of `s` up to member i keeps. */
  ghost predicate Reserving(s: Layout, i: nat, g: nat, r: Layout) {
    && WellFormed(s) && LegalRecord(s) && Synced(s, i, g) && Rebuilt(s, i, g, r) && r.cfg == s.cfg
    && Growing(r) && AllReserved(s, i, r)
  }

  lemma AnonAdvances(s: Layout, i: nat, g: nat, r: Layout)
    requires Reserving(s, i, g, r) && GroupStarts(s, i, g)
    ensures var q, next := AddAnonymous(r, s.groups[g].agg), i + s.groups[g].count;
            Synced(s, next, g + 1) && Rebuilt(s, next, g + 1, q) && Growing(q) && q.maxAlign >= r.maxAlign
  {
    var gr := s.groups[g];
    assert GroupFits(s, gr) && LegalDecl(Anon(gr.agg));
    StepRebuildsAnon(s, i, g, r);
    AnonSound(r, gr.agg);
    StepMaxAlign(r, Anon(gr.agg));
  }

  lemma AllReservedPastGroup(s: Layout, i: nat, g: nat, q: Layout)
    requires GroupStarts(s, i, g) && i + s.groups[g].count <= |s.members| && |s.bits| == |s.members|
    requires i + s.groups[g].count <= |q.bits| && AllReserved(s, i, q)
    ensures AllReserved(s, i + s.groups[g].count, q)
  {
    forall k | i <= k < i + s.groups[g].count ensures !OwnMember(s, k) { assert InGroup(s, g, k); }
  }

  lemma AnonReserves(s: Layout, i: nat, g: nat, r: Layout)
    requires Reserving(s, i, g, r) && GroupStarts(s, i, g)
    ensures Reserving(s, i + s.groups[g].count, g + 1, Step(r, Anon(s.groups[g].agg)))
  {
    var q := AddAnonymous(r, s.groups[g].agg);
    AnonAdvances(s, i, g, r);
    AnonKeepsBits(r, s.groups[g].agg);
    assert q.cfg == r.cfg && |s.bits| == |s.members|;
    hide AddAnonymous, Sound, Growing, LegalRecord, WellFormed, AllReserved, LegalDecl;
    AllReservedKept(s, i, r, q);
    AllReservedPastGroup(s, i, g, q);
  }

  lemma OwnReserves(s: Layout, i: nat, g: nat, r: Layout)
    requires Reserving(s, i, g, r) && i < |s.members| && !GroupStarts(s, i, g)
    ensures Reserving(s, i + 1, g, Step(r, OwnAt(s, i)))
  {
    var d := OwnAt(s, i);
    assert LegalDecl(d) && SingleIfBits(s, i);
    if g < |s.groups| { assert GroupFits(s, s.groups[g]); }
    OwnAllReserved(s, i, r);
    assert CursorInside(r) && Lists(r);
    var q := Step(r, d);
    hide Step, Sound, LegalDecl, GroupFits, SingleIfBits, AllReserved, Growing, CursorInside, Lists, LegalRecord;
    StepGrows(r, d);
    GrownRebuilds(s, i, g, r, q);
    StepPlaces(r, d);
    PlacedSound(r, q);
  }

  lemma OwnAllReserved(s: Layout, i: nat, r: Layout)
    requires i < |s.members| && |s.bits| == |s.members| && LegalRecord(s) && r.cfg == s.cfg
    requires CursorInside(r) && Lists(r) && |r.members| == i && AllReserved(s, i, r)
    ensures var q := Step(r, OwnAt(s, i)); i + 1 <= |q.bits| && AllReserved(s, i + 1, q)
  {
    var d := OwnAt(s, i);
    assert LegalDecl(d);
    var q := Step(r, d);
    if Windowed(s, i) { StepReserves(r, d); }
    hide Step, LegalDecl, Reserved, LegalRecord, CursorInside, AllReserved, Windowed;
    StepGrows(r, d);
    StepKeepsConfig(r, d);
    StepMaxAlign(r, d);
    assert forall k :: 0 <= k < i ==> q.bits[k] == q.bits[..i][k];
    AllReservedKept(s, i, r, q);
    AllReservedGrows(s, i, q);
  }

  lemma AllReservedGrows(s: Layout, i: nat, q: Layout)
    requires i < |s.members| && |s.bits| == |s.members| && i < |q.bits| && AllReserved(s, i, q)
    requires Windowed(s, i) ==> Reserved(q, s.members[i].ty, q.bits[i])
    ensures AllReserved(s, i + 1, q)
  {
    hide Windowed, Reserved, OwnMember;
  }

  lemma ReservingFacts(s: Layout, i: nat, g: nat, r: Layout)
    requires Reserving(s, i, g, r)
    ensures WellFormed(s) && i <= |s.members| == |s.bits| && !GroupPassed(s, i, g)
    ensures GroupStarts(s, i, g) ==> g < |s.groups| && 0 < s.groups[g].count <= |s.members| - i
    ensures |r.bits| == i && AllReserved(s, i, r)
  {
    if g < |s.groups| { assert GroupFits(s, s.groups[g]); }
    hide AllReserved, Growing, LegalRecord, GroupFits;
  }

  lemma {:induction false} FoldReserves(s: Layout, i: nat, g: nat, r: Layout)
    requires Reserving(s, i, g, r)
    ensures var q := Fold(r, Decls(s, i, g)); |q.bits| == |s.bits| == |s.members| && AllReserved(s, |s.members|, q)
    decreases |s.members| - i
  {
    hide *;
    ReservingFacts(s, i, g, r);
    if i == |s.members| {
      FoldDone(s, g, r);
    } else if GroupStarts(s, i, g) {
      AnonReserves(s, i, g, r);
      FoldUnitAnon(s, i, g, r);
      FoldReserves(s, i + s.groups[g].count, g + 1, Step(r, Anon(s.groups[g].agg)));
    } else {
      OwnReserves(s, i, g, r);
      FoldUnitOwn(s, i, g, r);
      FoldReserves(s, i + 1, g, Step(r, OwnAt(s, i)));
    }
  }

  /** A reserved unit lies inside the record once its size is rounded up. */
  lemma FinalizedWindow(r: Layout, ty: FieldType, info: BitField)
    requires Reserved(r, ty, info) && IsPow2(r.maxAlign) && IsPow2OrZero(ty.align)
    requires r.cfg.microsoft || NaturalAlign(ty) % BitStorage(ty) == 0
    ensures info.storageOffset + info.storageSize <= AlignUp(r.size, r.maxAlign)
  {
    if !r.cfg.microsoft {
      var unit, final := info.storageSize, AlignUp(r.size, r.maxAlign);
      AlignUpRounds(r.size, r.maxAlign);
      AlignUpRounds(info.storageOffset + 1, unit);
      hide AlignUp;
      Pow2Divides(NaturalAlign(ty), r.maxAlign);
      DividesTransitive(unit, NaturalAlign(ty), r.maxAlign);
      DividesTransitive(unit, r.maxAlign, final);
      SumOfMultiples(info.storageOffset, unit, unit);
      if final < info.storageOffset + unit {
        AlignUpUnique(info.storageOffset + 1, unit, info.storageOffset + unit);
        AlignUpLeast(info.storageOffset + 1, unit, final);
      }
    }
  }

  /** The same promise for a flattened member, made by the aggregate that declared it. */
  ghost predicate WindowPromised(s: Layout, i: nat)
    decreases s
  {
    && i < |s.members| && i < |s.bits|
    && (OwnMember(s, i) ==> Windowed(s, i))
    && forall g :: 0 <= g < |s.groups| && InGroup(s, g, i) ==>
         WindowPromised(s.groups[g].agg, i - s.groups[g].first)
  }

  lemma ReplayReserves(s: Layout)
    requires WellFormed(s) && LegalRecord(s)
    ensures var r := Replay(s, 0); |r.bits| == |s.bits| == |s.members| && AllReserved(s, |s.members|, r)
  {
    FoldReserves(s, 0, 0, Empty(s.cfg).(size := 0));
    hide Fold, Decls, AllReserved, LegalRecord, WellFormed;
  }

  lemma RunReserves(cfg: Config, ops: seq<Op>)
    requires LegalConfig(cfg) && Replayable(Empty(cfg), ops) && LegalOps(ops)
    ensures var s := Run(Empty(cfg), ops); |s.bits| == |s.members| && AllReserved(s, |s.members|, s)
  {
    var s := Run(Empty(cfg), ops);
    EmptyConsistent(cfg);
    RunConsistent(Empty(cfg), ops);
    RunSound(cfg, ops);
    RunConfig(Empty(cfg), ops);
    var r := Replay(s, 0);
    ReplayReserves(s);
    hide Replay, Run, Growing, LegalRecord, AllReserved;
    assert Agrees(r, s);
    AllReservedKept(s, |s.members|, r, s);
  }

  lemma OwnWindow(b: Body, i: nat)
    requires Replayable(Empty(b.cfg), b.ops) && LegalBody(b)
    requires i < |Build(b).members| && i < |Build(b).bits| && OwnMember(Build(b), i) && Windowed(Build(b), i)
    ensures Build(b).bits[i].storageOffset >= 0
    ensures Build(b).bits[i].storageOffset + Build(b).bits[i].storageSize <= Build(b).size
    ensures Build(b).bits[i].storageSize == BitStorage(Build(b).members[i].ty)
    ensures Build(b).cfg.microsoft || Build(b).bits[i].storageOffset % Build(b).bits[i].storageSize == 0
  {
    var s := Run(Empty(b.cfg), b.ops);
    RunReserves(b.cfg, b.ops);
    RunSound(b.cfg, b.ops);
    assert LegalDecl(OwnAt(s, i));
    FinalizedOwnWindow(s, i, b.cppMinObjectSize);
  }

  lemma FinalizedOwnWindow(s: Layout, i: nat, cppMin: bool)
    requires i < |s.members| == |s.bits| && AllReserved(s, |s.members|, s) && IsPow2(s.maxAlign)
    requires OwnMember(Finalize(s, cppMin), i) && Windowed(s, i) && IsPow2OrZero(s.members[i].ty.align)
    ensures s.bits[i].storageOffset >= 0
    ensures s.bits[i].storageOffset + s.bits[i].storageSize <= Finalize(s, cppMin).size
    ensures s.bits[i].storageSize == BitStorage(s.members[i].ty)
    ensures s.cfg.microsoft || s.bits[i].storageOffset % s.bits[i].storageSize == 0
  {
    assert OwnMember(s, i) by {
      forall g | 0 <= g < |s.groups| ensures !InGroup(s, g, i) { assert !InGroup(Finalize(s, cppMin), g, i); }
    }
    FinalizedWindow(s, s.members[i].ty, s.bits[i]);
  }

  // ----- members of anonymous aggregates

  /** A group's aggregate is what some OpAnon of the run built. */
  ghost predicate FromOps(ops: seq<Op>, agg: Layout) {
    exists k :: 0 <= k < |ops| && BuiltBy(ops[k], agg)
  }

  predicate BuiltBy(op: Op, agg: Layout) {
    op.OpAnon? && agg == Build(op.inner)
  }

  ghost predicate GroupsFrom(s: Layout, ops: seq<Op>) {
    forall g :: 0 <= g < |s.groups| ==> FromOps(ops, s.groups[g].agg)
  }

  lemma ApplyGroups(s: Layout, done: seq<Op>, op: Op)
    requires Consistent(s) && ReplayableOp(s, op) && GroupsFrom(s, done)
    ensures GroupsFrom(Apply(s, op), done + [op])
  {
    var t, all := Apply(s, op), done + [op];
    forall agg | FromOps(done, agg) ensures FromOps(all, agg) {
      var k :| 0 <= k < |done| && BuiltBy(done[k], agg);
      assert BuiltBy(all[k], agg);
    }
    assert op.OpAnon? ==> BuiltBy(all[|done|], Build(op.inner));
    ApplyGroupsKept(s, op);
    forall g | 0 <= g < |t.groups| ensures FromOps(all, t.groups[g].agg) {
      if g < |s.groups| { assert t.groups[g].agg == s.groups[g].agg; }
    }
  }

  lemma ApplyGroupsKept(s: Layout, op: Op)
    requires Consistent(s) && ReplayableOp(s, op)
    ensures var t := Apply(s, op);
            && |t.groups| == |s.groups| + (if op.OpAnon? then 1 else 0)
            && (forall g :: 0 <= g < |s.groups| ==> t.groups[g].agg == s.groups[g].agg)
            && (op.OpAnon? ==> t.groups[|s.groups|].agg == Build(op.inner))
  {
    hide AddMember, AddBitField, ApplyMemberPacking;
    match op
    case OpMember(m) => AddGrows(s, Own(m, false, 0, false, 0));
    case OpBits(name, ty, width) => AddGrows(s, Own(Member(name, ty, 1, false), true, width, false, 0));
    case OpPack => PackKeepsGroups(s);
    case _ =>
  }

  lemma PackKeepsGroups(s: Layout)
    requires Consistent(s)
    ensures var t := ApplyMemberPacking(s);
            |t.groups| == |s.groups| && forall g :: 0 <= g < |s.groups| ==> t.groups[g].agg == s.groups[g].agg
  {
    PackingRelays(s);
    if s.members != [] && |s.members| - 1 !in s.packed {
      LastPackedRelayable(s);
      RelayoutKeeps(LastPacked(s));
      hide Consistent, Relayout, ApplyMemberPacking, WellFormed;
      forall g | 0 <= g < |s.groups| ensures Relayout(LastPacked(s)).groups[g].agg == s.groups[g].agg {
        assert SameGroup(Relayout(LastPacked(s)).groups[g], LastPacked(s).groups[g]);
      }
    }
  }

  lemma {:induction false} RunGroups(s: Layout, done: seq<Op>, ops: seq<Op>)
    requires Consistent(s) && Replayable(s, ops) && GroupsFrom(s, done)
    ensures GroupsFrom(Run(s, ops), done + ops)
    decreases |ops|
  {
    if ops == [] {
      assert done + [] == done;
    } else {
      ApplyGroups(s, done, ops[0]);
      ApplyConsistent(s, ops[0]);
      RunGroups(Apply(s, ops[0]), done + [ops[0]], ops[1..]);
      assert done + [ops[0]] + ops[1..] == done + ops;
    }
  }

  lemma {:induction false} RunReplayable(s: Layout, ops: seq<Op>, k: nat)
    requires Replayable(s, ops) && k < |ops| && ops[k].OpAnon?
    ensures Replayable(Empty(ops[k].inner.cfg), ops[k].inner.ops) && |Build(ops[k].inner).members| > 0
    decreases |ops|
  {
    hide Apply, Build;
    if k > 0 { RunReplayable(Apply(s, ops[0]), ops[1..], k - 1); }
  }

  lemma GroupOrigin(b: Body, g: nat) returns (k: nat)
    requires Replayable(Empty(b.cfg), b.ops) && LegalBody(b) && g < |Build(b).groups|
    ensures k < |b.ops| && BuiltBy(b.ops[k], Build(b).groups[g].agg)
    ensures Replayable(Empty(b.ops[k].inner.cfg), b.ops[k].inner.ops) && LegalBody(b.ops[k].inner)
  {
    EmptyConsistent(b.cfg);
    RunGroups(Empty(b.cfg), [], b.ops);
    assert [] + b.ops == b.ops;
    assert FromOps(b.ops, Build(b).groups[g].agg);
    k :| 0 <= k < |b.ops| && BuiltBy(b.ops[k], Build(b).groups[g].agg);
    assert LegalOp(b.ops[k]);
    RunReplayable(Empty(b.cfg), b.ops, k);
  }

  lemma EmbeddedWindow(s: Layout, g: nat, i: nat)
    requires Sound(s) && g < |s.groups| && InGroup(s, g, i)
    ensures var gr := s.groups[g];
            && i < |s.bits| && i - gr.first < |gr.agg.bits| && 0 <= gr.offset && gr.offset + gr.agg.size <= s.size
            && s.bits[i] == Moved(gr.agg.bits[i - gr.first], gr.offset)
            && i < |s.members| && i - gr.first < |gr.agg.members| && s.members[i] == gr.agg.members[i - gr.first]
  {
    assert Embeds(s, s.groups[g]) && EmbedsMember(s, s.groups[g], i - s.groups[g].first);
  }

  /** Reading or writing a bit-field through its whole storage unit never leaves the completed
      record: for every Microsoft bit-field under any packing, and every System V one that is
      unpacked and of a type aligned to its unit, at any depth of anonymous nesting. */
  lemma AccessStaysInside(b: Body, i: nat)
    requires Replayable(Empty(b.cfg), b.ops) && LegalBody(b) && WindowPromised(Build(b), i)
    ensures var s := Build(b);
            && i < |s.members| && i < |s.bits| && s.bits[i].storageOffset >= 0
            && s.bits[i].storageSize == BitStorage(s.members[i].ty)
            && s.bits[i].storageOffset + s.bits[i].storageSize <= s.size
            && (OwnMember(s, i) ==> s.cfg.microsoft || s.bits[i].storageOffset % s.bits[i].storageSize == 0)
    decreases b
  {
    hide Build, Sound, Replayable, LegalBody, WindowPromised, Windowed, InGroup, LegalRecord;
    var s := Build(b);
    BuildSound(b);
    if OwnMember(s, i) {
      PromisedOwn(s, i);
      OwnWindow(b, i);
    } else {
      var g :| 0 <= g < |s.groups| && InGroup(s, g, i);
      var k := GroupOrigin(b, g);
      EmbeddedWindow(s, g, i);
      PromisedInGroup(s, i, g);
      AccessStaysInside(b.ops[k].inner, i - s.groups[g].first);
    }
  }

  lemma PromisedOwn(s: Layout, i: nat)
    requires WindowPromised(s, i) && OwnMember(s, i)
    ensures i < |s.members| && i < |s.bits| && Windowed(s, i)
  {
    hide Windowed;
  }

  lemma PromisedInGroup(s: Layout, i: nat, g: nat)
    requires WindowPromised(s, i) && g < |s.groups| && InGroup(s, g, i)
    ensures i >= s.groups[g].first && WindowPromised(s.groups[g].agg, i - s.groups[g].first)
  {}
}
