/** Exactly which starts leave a relayout's relative layout as it is from 0. */
module Starts {
  import opened Alignment
  import opened RecordLayout
  import opened ReplayedLayout
  import opened Agreement
  import opened Placement
  import opened RecordAlignment
  import opened Windows
  import opened Units
  import opened Translation

  // ----- the condition, read off the record

  /** A field that may straddle, starting at `bit`, is recorded from the byte that holds that bit. */
  predicate FromItsByte(bit: int, storage: nat, width: nat)
    requires storage != 0
  {
    bit % (storage * 8) + width > storage * 8 || bit % (storage * 8) < 8
  }

  /** A System V field's unit moves along by k bytes. */
  predicate KeepsWindow(cfg: Config, bit: int, storage: nat, width: nat, k: nat)
    requires storage != 0
  {
    k % storage == 0
    || (Straddles(cfg) && FromItsByte(bit, storage, width) && FromItsByte(bit + 8 * k, storage, width))
  }

  /** How far the recorded unit begins before the byte of the field's first bit. */
  function Lag(bit: nat, storage: nat, width: nat): nat
    requires storage != 0
  {
    if bit % (storage * 8) + width > storage * 8 then 0 else bit % (storage * 8) / 8
  }

  lemma StraddlingWindow(cfg: Config, bit: nat, storage: nat, width: nat)
    requires storage != 0 && Straddles(cfg)
    ensures SysVWindow(cfg, bit, storage, width) == bit / 8 - Lag(bit, storage, width)
    ensures Lag(bit, storage, width) == 0 <==> FromItsByte(bit, storage, width)
  {
    var unit := storage * 8;
    var q, x := bit / unit, bit % unit;
    assert bit == q * unit + x && q * unit == 8 * (q * storage);
    DivUnique(bit, 8, q * storage + x / 8, x % 8);
  }

  /** Where a nonzero lag's field begins in its unit. */
  lemma LagPlace(bit: nat, storage: nat, width: nat, lag: nat)
    requires storage != 0 && Lag(bit, storage, width) == lag != 0
    ensures bit % (storage * 8) == 8 * lag + bit % 8
  {
    SameByteBit(bit, storage);
    SameParts(bit % (storage * 8), 8 * lag + bit % 8);
  }

  /** Equal nonzero lags are equal places in the unit. */
  lemma SameLag(bit: nat, storage: nat, width: nat, k: nat)
    requires storage != 0 && Lag(bit, storage, width) == Lag(bit + 8 * k, storage, width) != 0
    ensures k % storage == 0
  {
    var lag := Lag(bit, storage, width);
    LagPlace(bit, storage, width, lag);
    LagPlace(bit + 8 * k, storage, width, lag);
    hide Lag;
    SameByte(bit, k);
    SamePlace(bit, bit + 8 * k, storage, k);
  }

  lemma SameByte(bit: nat, k: nat)
    ensures (bit + 8 * k) % 8 == bit % 8
  {}

  lemma SameParts(x: nat, y: nat)
    requires x / 8 == y / 8 && x % 8 == y % 8
    ensures x == y
  {}

  lemma SamePlace(b: nat, c: nat, storage: nat, k: nat)
    requires storage != 0 && c == b + 8 * k && b % (storage * 8) == c % (storage * 8)
    ensures k % storage == 0
  {
    var unit := storage * 8;
    var p, q := b / unit, c / unit;
    assert b == unit * p + b % unit && c == unit * q + c % unit;
    assert 8 * k == unit * q - unit * p == 8 * (storage * (q - p));
    DivUnique(k, storage, q - p, 0);
  }

  lemma SameByteBit(bit: nat, storage: nat)
    requires storage != 0
    ensures bit % (storage * 8) % 8 == bit % 8
  {
    var unit := storage * 8;
    var q, x := bit / unit, bit % unit;
    assert bit == q * unit + x && q * unit == 8 * (q * storage);
    DivUnique(bit, 8, q * storage + x / 8, x % 8);
  }

  /** The unit arithmetic in closed form: without straddling just the multiples of the unit, and with
      it also a start that leaves the field recorded from its own first byte. */
  lemma UnitMovesIff(cfg: Config, bit: nat, storage: nat, width: nat, k: nat)
    requires storage != 0
    ensures UnitMoves(cfg, bit, storage, width, k) <==> KeepsWindow(cfg, bit, storage, width, k)
  {
    if k % storage == 0 { ShiftWindow(bit, storage, k); }
    if Straddles(cfg) {
      StraddlingWindow(cfg, bit, storage, width);
      StraddlingWindow(cfg, bit + 8 * k, storage, width);
      assert (bit + 8 * k) / 8 == bit / 8 + k;
      hide SysVWindow, FromItsByte;
      if Lag(bit, storage, width) == Lag(bit + 8 * k, storage, width) != 0 { SameLag(bit, storage, width, k); }
    } else if UnitMoves(cfg, bit, storage, width, k) {
      UnitsApart(cfg, bit, bit + 8 * k, storage, width, k);
    }
  }

  /** Own bit-field i moves along with a start k bytes further on: a `:0` if its boundary does, a
      Microsoft field if it shares its unit or the unit is aligned there too, and a System V field
      if k is a multiple of its unit or it is recorded from its first byte in both places. */
  ghost predicate FieldMovesWith(s: Layout, i: nat, k: nat)
    requires Lists(s) && i < |s.members|
  {
    var c, ty, info := PackedConfig(s.cfg, i in s.packed), s.members[i].ty, s.bits[i];
    if info.bitWidth == 0 then (c.microsoft && !FollowsBits(s, i)) || Divides(BitGrain(c, ty, true), k)
    else if c.microsoft then Forward(info) != 0 || Divides(FieldAlign(c, ty), k)
    else KeepsWindow(c, 8 * info.storageOffset + Forward(info), BitStorage(ty), info.bitWidth, k)
  }

  ghost predicate MovesWith(s: Layout, i: nat, k: nat)
    requires Lists(s) && i < |s.members|
  {
    && Divides(ExplicitAt(s, i), k)
    && if s.bits[i].isBitField then FieldMovesWith(s, i, k)
       else Divides(FieldAlign(PackedConfig(s.cfg, i in s.packed), s.members[i].ty), k)
  }

  /** Every own member from i and every anonymous block from g on moves along. */
  ghost predicate AllMove(s: Layout, i: nat, g: nat, k: nat)
    requires Lists(s)
  {
    && (forall j :: i <= j < |s.members| && OwnMember(s, j) ==> MovesWith(s, j, k))
    && (forall h :: g <= h < |s.groups| ==> Divides(AggAlign(s.cfg, s.groups[h].agg), k))
  }

  // ----- a declaration that does not move along shows it

  /** `f` has all of `q`'s entries k bytes further on. */
  ghost predicate EntriesMoved(f: Layout, q: Layout, k: nat) {
    f.offsets == Shifted(q.offsets, k) && f.bits == MovedAll(q.bits, k) && f.groups == MovedGroups(q.groups, k)
  }

  lemma AddOffsetAt(c: Layout, d: Decl)
    requires d.Own? && !c.cfg.isUnion
    ensures d.isBits ==> var q := AddBitField(c, d.m.name, d.m.ty, d.width);
                         |q.offsets| == |c.offsets| + 1 && |q.bits| == |c.bits| + 1
                         && q.offsets[|c.offsets|] == q.bits[|c.bits|].storageOffset
    ensures var q := AddMember(c, d.m);
            |q.offsets| == |c.offsets| + 1 && q.offsets[|c.offsets|] == AlignUp(c.size, FieldAlign(c.cfg, d.m.ty))
  {
    hide AlignUp, FieldAlign, BitStorage, OpenField, Max, MemberBytes, NaturalAlign, Capped;
  }

  lemma OwnOffsetAt(r: Layout, d: Decl)
    requires d.Own? && Lists(r) && !r.cfg.isUnion
    ensures var q := AddOwn(r, d);
            && |q.offsets| == |r.offsets| + 1
            && q.offsets[|r.offsets|] == if d.isBits then Entry(r, d).storageOffset
                                         else AlignUp(r.size, FieldAlign(PackedConfig(r.cfg, d.packed), d.m.ty))
  {
    hide AlignUp, FieldAlign, AddMember, AddBitField, Entry;
    AddOffsetAt(UnderPack(r, d.packed), d);
    if d.isBits { AddOwnEntry(r, d); }
  }

  lemma AddOwnEntry(r: Layout, d: Decl)
    requires d.Own? && d.isBits
    ensures |AddOwn(r, d).bits| == |r.bits| + 1 && AddOwn(r, d).bits[|r.bits|] == Entry(r, d)
  {
    AddEntry(UnderPack(r, d.packed), d);
    hide AddBitField, AddBoundary, OpenField, FieldInfo;
  }

  lemma StepOffset(r: Layout, d: Decl)
    requires d.Own? && ScratchKeysBelow(r) && !r.cfg.isUnion
    ensures var q, n := Step(r, d), |r.offsets|;
            var at: int := if d.isBits then Entry(r, d).storageOffset
                      else AlignUp(r.size, FieldAlign(PackedConfig(r.cfg, d.packed), d.m.ty));
            |q.offsets| == n + 1 && q.offsets[n] == if d.align == 0 then at else AlignUp(at, d.align)
  {
    OwnOffsetAt(r, d);
    AddOwnGrows(r, d);
    AddOwnKeepsAttributes(r, d);
    hide AddOwn, AlignUp, Entry, FieldAlign, Max;
  }

  lemma BoundaryEntry(r: Layout, d: Decl)
    requires d.Own? && d.isBits && d.m.name == "" && d.width == 0 && !r.cfg.isUnion
    ensures var c := PackedConfig(r.cfg, d.packed);
            Entry(r, d).storageOffset
            == if c.microsoft && !r.previousBits then r.size else AlignUp(r.size, BitGrain(c, d.m.ty, true))
  {
    hide AlignUp, FieldAlign, NaturalAlign, Capped, Max;
  }

  lemma MicrosoftEntry(r: Layout, d: Decl)
    requires d.Own? && d.isBits && d.width > 0 && !r.cfg.isUnion && r.cfg.microsoft
    ensures var info, storage := Entry(r, d), BitStorage(d.m.ty);
            if SharesUnit(r, storage, d.width) then info.storageOffset == r.unitOffset && Forward(info) == r.nextBit
            else info.storageOffset == AlignUp(r.size, FieldAlign(PackedConfig(r.cfg, d.packed), d.m.ty))
                 && Forward(info) == 0
  {
    hide AlignUp, FieldAlign, BitStorage;
  }

  lemma SysVEntry(r: Layout, d: Decl)
    requires d.Own? && d.isBits && d.width > 0 && !r.cfg.microsoft
    ensures var info, storage := Entry(r, d), BitStorage(d.m.ty);
            var c := PackedConfig(r.cfg, d.packed);
            var bit := SysVBit(c, CursorBit(r), storage * 8, d.width);
            info.storageOffset == SysVWindow(c, bit, storage, d.width)
            && 8 * info.storageOffset + Forward(info) == bit
  {
    var c := UnderPack(r, d.packed);
    assert CursorBit(c) == CursorBit(r);
    OpenSysV(c, d.m.ty, d.width);
    hide OpenField, SysVBit, SysVWindow, BitStorage, CursorBit, FieldAlign, Max;
  }

  lemma EntryStays(r: Layout, d: Decl, k: nat)
    requires d.Own? && d.isBits && AtRest(r) && LegalDecl(d) && !BitsMove(r, PackedConfig(r.cfg, d.packed), d, k)
    ensures Entry(Shift(r, k), d).storageOffset != Entry(r, d).storageOffset + k
  {
    var c, ty, f := PackedConfig(r.cfg, d.packed), d.m.ty, Shift(r, k);
    hide Entry, Shift, AlignUp, FieldAlign, BitStorage, SysVBit, SysVWindow, CursorBit, NaturalAlign;
    ShiftedFacts(r, k);
    if d.width == 0 {
      BoundaryEntry(r, d);
      BoundaryEntry(f, d);
      AlignUpShiftIff(r.size, BitGrain(c, ty, true), k);
    } else if r.cfg.microsoft {
      MicrosoftEntry(r, d);
      MicrosoftEntry(f, d);
      AlignUpShiftIff(r.size, FieldAlign(c, ty), k);
    } else {
      SysVEntryStays(r, d, k);
    }
  }

  lemma SysVEntryStays(r: Layout, d: Decl, k: nat)
    requires d.Own? && d.isBits && AtRest(r) && LegalDecl(d) && !BitsMove(r, PackedConfig(r.cfg, d.packed), d, k)
    requires d.width > 0 && !r.cfg.microsoft
    ensures Entry(Shift(r, k), d).storageOffset != Entry(r, d).storageOffset + k
  {
    hide Entry, Shift, AlignUp, FieldAlign, BitStorage, SysVBit, SysVWindow, CursorBit, NaturalAlign, Forward;
    ShiftedFacts(r, k);
    SysVEntry(r, d);
    SysVEntry(Shift(r, k), d);
    SysVMovesIff(PackedConfig(r.cfg, d.packed), CursorBit(r), BitStorage(d.m.ty), d.width, k);
    hide PackedConfig, AtRest;
  }

  lemma ShiftedFacts(r: Layout, k: nat)
    requires AtRest(r)
    ensures var f := Shift(r, k);
            && f.cfg == r.cfg && f.size == r.size + k && f.previousBits == r.previousBits
            && CursorBit(f) == CursorBit(r) + 8 * k
            && f.active == r.active && f.unitSize == r.unitSize && f.nextBit == r.nextBit
            && |f.offsets| == |r.offsets| && |f.bits| == |r.bits| && |f.groups| == |r.groups| && f.members == r.members
            && f.explicitAlign == r.explicitAlign
  {}

  /** Some entry of an own member that does not move along differs. */
  lemma OwnStays(r: Layout, d: Decl, k: nat)
    requires d.Own? && AtRest(r) && ScratchKeysBelow(r) && LegalDecl(d) && LegalConfig(r.cfg) && IsPow2OrZero(d.align)
    requires !Moves(r, d, k)
    ensures var f, q, n := Step(Shift(r, k), d), Step(r, d), |r.offsets|;
            && |f.offsets| == |q.offsets| == |f.bits| == |q.bits| == n + 1
            && (f.offsets[n] != q.offsets[n] + k || f.bits[n] != Moved(q.bits[n], k))
  {
    hide Entry, Shift, Step, AlignUp, BitStorage, BitsMove, LegalDecl, Capped, NaturalAlign;
    ShiftedFacts(r, k);
    StepOffset(r, d);
    StepOffset(Shift(r, k), d);
    StepGrows(r, d);
    StepGrows(Shift(r, k), d);
    var c := PackedConfig(r.cfg, d.packed);
    if d.isBits {
      StepEntry(r, d);
      StepEntry(Shift(r, k), d);
      EntryIsBits(r, d);
      if !BitsMove(r, c, d, k) { EntryStays(r, d, k); } else { AlignUpShiftIff(Entry(r, d).storageOffset, d.align, k); }
    } else {
      FieldAlignPow2(c, d);
      PlainShiftIff(r.size, FieldAlign(c, d.m.ty), d.align, k);
    }
  }

  lemma EntryIsBits(r: Layout, d: Decl)
    requires d.Own? && d.isBits
    ensures Entry(r, d).isBitField
  {}

  lemma FieldAlignPow2(c: Config, d: Decl)
    requires d.Own? && LegalDecl(d) && IsPow2OrZero(c.pack)
    ensures IsPow2(FieldAlign(c, d.m.ty))
  {}

  lemma AnonStays(r: Layout, agg: Layout, k: nat)
    requires AtRest(r) && Lists(agg) && |agg.members| > 0 && !Divides(AggAlign(r.cfg, agg), k)
    ensures var f, q, n := Step(Shift(r, k), Anon(agg)), Step(r, Anon(agg)), |r.groups|;
            && |f.groups| == |q.groups| == n + 1 && f.groups[n] != q.groups[n].(offset := q.groups[n].offset + k)
  {
    AlignUpShiftIff(r.size, AggAlign(r.cfg, agg), k);
    hide AlignUp, AggAlign, ShiftKeys, ShiftSet, Shifted, MovedAll;
  }

  lemma ShiftedScratch(r: Layout, k: nat)
    requires ScratchKeysBelow(r)
    ensures ScratchKeysBelow(Shift(r, k))
  {}

  lemma OwnStaysOn(q: Layout, f: Layout, ds: seq<Decl>, n: nat, k: nat)
    requires ScratchKeysBelow(q) && ScratchKeysBelow(f) && forall d :: d in ds ==> DeclFits(d)
    requires n < |q.offsets| && n < |f.offsets| && n < |q.bits| && n < |f.bits|
    requires f.offsets[n] != q.offsets[n] + k || f.bits[n] != Moved(q.bits[n], k)
    ensures !EntriesMoved(Fold(f, ds), Fold(q, ds), k)
  {
    hide Fold, DeclFits, ScratchKeysBelow;
    FoldContinues(q, ds);
    FoldContinues(f, ds);
    var x, y := Fold(q, ds), Fold(f, ds);
    assert x.bits[n] == x.bits[..|q.bits|][n] && y.bits[n] == y.bits[..|f.bits|][n];
    assert x.offsets[n] == x.offsets[..|q.offsets|][n] && y.offsets[n] == y.offsets[..|f.offsets|][n];
  }

  lemma AnonStaysOn(q: Layout, f: Layout, ds: seq<Decl>, n: nat, k: nat)
    requires ScratchKeysBelow(q) && ScratchKeysBelow(f) && forall d :: d in ds ==> DeclFits(d)
    requires n < |q.groups| && n < |f.groups| && f.groups[n] != q.groups[n].(offset := q.groups[n].offset + k)
    ensures !EntriesMoved(Fold(f, ds), Fold(q, ds), k)
  {
    hide Fold, DeclFits, ScratchKeysBelow;
    FoldContinues(q, ds);
    FoldContinues(f, ds);
    var x, y := Fold(q, ds), Fold(f, ds);
    assert x.groups[n] == x.groups[..|q.groups|][n] && y.groups[n] == y.groups[..|f.groups|][n];
  }

  // ----- the walk

  /** The replay is at rest and keeps track of the members before i. */
  ghost predicate Resting(s: Layout, i: nat, r: Layout)
    requires i <= |s.members| && |s.bits| == |s.members|
  {
    AtRest(r) && KeepsTrack(s, i, r)
  }

  lemma RestsOwn(s: Layout, i: nat, g: nat, r: Layout)
    requires Lists(s) && i < |s.members| && WalksOwn(s, i, g, r) && AtRest(r)
    ensures Resting(s, i + 1, Step(r, OwnAt(s, i)))
  {
    hide Step, LegalDecl, Walking, Placed, OwnMember, AtRest, KeepsTrack;
    StepRests(r, OwnAt(s, i));
    TracksOwn(s, i, g, r);
  }

  lemma RestsAnon(s: Layout, i: nat, g: nat, r: Layout)
    requires Lists(s) && g < |s.groups| && WalksAnon(s, i, g, r) && AtRest(r)
    ensures Resting(s, i + s.groups[g].count, Step(r, Anon(s.groups[g].agg)))
  {
    hide Step, LegalDecl, Walking, Placed, AtRest, KeepsTrack;
    StepRests(r, Anon(s.groups[g].agg));
    TracksAnon(s, i, g, r);
  }

  lemma FieldMovesIff(s: Layout, i: nat, r: Layout, d: Decl, k: nat)
    requires Lists(s) && i < |s.members| && Resting(s, i, r) && r.cfg == s.cfg
    requires d == OwnAt(s, i) && d.isBits && LegalDecl(d) && s.bits[i] == Entry(r, d)
    ensures FieldMovesWith(s, i, k) <==> BitsMove(r, PackedConfig(r.cfg, d.packed), d, k)
  {
    hide LegalDecl, OwnMember, Entry, SysVBit, SysVWindow;
    hide BitStorage, FieldAlign, CursorBit, UnitMoves, KeepsWindow, NaturalAlign, FollowsBits;
    ZeroIsBoundary(d);
    if d.width == 0 {
    } else if r.cfg.microsoft {
      MicrosoftEntry(r, d);
    } else {
      SysVEntry(r, d);
      UnitMovesIff(PackedConfig(r.cfg, d.packed), 8 * s.bits[i].storageOffset + Forward(s.bits[i]),
                   BitStorage(d.m.ty), d.width, k);
    }
  }

  /** The condition read off the record is the one on the replay. */
  lemma MovesWithIff(s: Layout, i: nat, g: nat, r: Layout, k: nat)
    requires Lists(s) && i < |s.members| && WalksOwn(s, i, g, r) && Resting(s, i, r)
    requires r.cfg == s.cfg && ScratchKeysBelow(r)
    ensures MovesWith(s, i, k) <==> Moves(r, OwnAt(s, i), k)
  {
    hide Step, LegalDecl, Walking, OwnMember, Entry, FieldMovesWith, BitsMove, FieldAlign, Resting, AtRest;
    var d := OwnAt(s, i);
    if d.isBits {
      StepEntry(r, d);
      assert s.bits[i] == Entry(r, d);
      FieldMovesIff(s, i, r, d, k);
    }
  }

  /** What the walk proves from member i on. */
  ghost predicate MovesFrom(s: Layout, i: nat, g: nat, r: Layout, k: nat)
    requires Lists(s)
  {
    var ds := Decls(s, i, g);
    && (AllMove(s, i, g, k) ==> Fold(Shift(r, k), ds) == Shift(Fold(r, ds), k))
    && (EntriesMoved(Fold(Shift(r, k), ds), Fold(r, ds), k) ==> AllMove(s, i, g, k))
  }

  /** Both replays take declaration d and go on from member `next` and group h. */
  ghost predicate BothGoOn(s: Layout, i: nat, g: nat, r: Layout, d: Decl, next: nat, h: nat, k: nat) {
    && i <= next && g <= h && Fold(r, Decls(s, i, g)) == Fold(Step(r, d), Decls(s, next, h))
    && Fold(Shift(r, k), Decls(s, i, g)) == Fold(Step(Shift(r, k), d), Decls(s, next, h))
  }

  lemma BothGoOnFrom(s: Layout, i: nat, g: nat, r: Layout, d: Decl, next: nat, h: nat, k: nat)
    requires i <= next && g <= h && Fold(r, Decls(s, i, g)) == Fold(Step(r, d), Decls(s, next, h))
    requires Fold(Shift(r, k), Decls(s, i, g)) == Fold(Step(Shift(r, k), d), Decls(s, next, h))
    ensures BothGoOn(s, i, g, r, d, next, h, k)
  {
    hide Fold, Decls, Step, Shift;
  }

  lemma MovingUnit(s: Layout, i: nat, g: nat, r: Layout, d: Decl, next: nat, h: nat, k: nat)
    requires Lists(s) && BothGoOn(s, i, g, r, d, next, h, k) && MovesFrom(s, next, h, Step(r, d), k)
    requires Step(Shift(r, k), d) == Shift(Step(r, d), k)
    requires AllMove(s, i, g, k) <==> AllMove(s, next, h, k)
    ensures MovesFrom(s, i, g, r, k)
  {
    hide Step, Fold, Decls, Shift, AllMove, EntriesMoved, Lists;
  }

  lemma StayingUnit(s: Layout, i: nat, g: nat, r: Layout, d: Decl, next: nat, h: nat, k: nat)
    requires Lists(s) && BothGoOn(s, i, g, r, d, next, h, k)
    requires !EntriesMoved(Fold(Step(Shift(r, k), d), Decls(s, next, h)), Fold(Step(r, d), Decls(s, next, h)), k)
    requires !AllMove(s, i, g, k)
    ensures MovesFrom(s, i, g, r, k)
  {
    hide Step, Fold, Decls, Shift, AllMove, EntriesMoved, Lists;
  }

  lemma AllMoveOwn(s: Layout, i: nat, g: nat, k: nat)
    requires Lists(s) && i < |s.members| && OwnMember(s, i)
    ensures AllMove(s, i, g, k) <==> MovesWith(s, i, k) && AllMove(s, i + 1, g, k)
  {
    hide MovesWith, AggAlign, OwnMember;
  }

  lemma AllMoveAnon(s: Layout, i: nat, g: nat, k: nat)
    requires Lists(s) && g < |s.groups| && s.groups[g].first == i && i + s.groups[g].count <= |s.members|
    ensures AllMove(s, i, g, k)
            <==> Divides(AggAlign(s.cfg, s.groups[g].agg), k) && AllMove(s, i + s.groups[g].count, g + 1, k)
  {
    forall j | i <= j < i + s.groups[g].count ensures !OwnMember(s, j) { assert InGroup(s, g, j); }
    hide MovesWith, AggAlign, OwnMember;
  }

  lemma OwnMoves(s: Layout, i: nat, g: nat, r: Layout, k: nat)
    requires Walking(s, i, g, r) && i < |s.members| && Lists(s) && |s.bits| == |s.offsets| == |s.members|
    requires LegalConfig(s.cfg) && WalksOwn(s, i, g, r) && Resting(s, i, r) && AtRest(r)
    requires MovesFrom(s, i + 1, g, Step(r, OwnAt(s, i)), k) && BothGoOn(s, i, g, r, OwnAt(s, i), i + 1, g, k)
    ensures MovesFrom(s, i, g, r, k)
  {
    hide *;
    var d := OwnAt(s, i);
    WalkFacts(s, i, g, r);
    WalkOwnFacts(s, i, g, r);
    MovesWithIff(s, i, g, r, k);
    AllMoveOwn(s, i, g, k);
    if Moves(r, d, k) {
      StepMoves(r, d, k);
      MovingUnit(s, i, g, r, d, i + 1, g, k);
    } else {
      OwnStays(r, d, k);
      ShiftedScratch(r, k);
      StepKeys(r, d);
      StepKeys(Shift(r, k), d);
      DeclsFit(s, i + 1, g);
      OwnStaysOn(Step(r, d), Step(Shift(r, k), d), Decls(s, i + 1, g), |r.offsets|, k);
      StayingUnit(s, i, g, r, d, i + 1, g, k);
    }
  }

  lemma AnonMoves(s: Layout, i: nat, g: nat, r: Layout, k: nat)
    requires Walking(s, i, g, r) && Lists(s) && g < |s.groups| && WalksAnon(s, i, g, r) && AtRest(r)
    requires var d, next := Anon(s.groups[g].agg), i + s.groups[g].count;
             && s.groups[g].first == i && next <= |s.members| && |s.groups[g].agg.members| > 0
             && MovesFrom(s, next, g + 1, Step(r, d), k) && BothGoOn(s, i, g, r, d, next, g + 1, k)
    ensures MovesFrom(s, i, g, r, k)
  {
    hide *;
    var d, next := Anon(s.groups[g].agg), i + s.groups[g].count;
    WalkFacts(s, i, g, r);
    WalkAnonFacts(s, i, g, r);
    AllMoveAnon(s, i, g, k);
    AnonMovesIff(r, s.groups[g].agg, k);
    if Moves(r, d, k) {
      StepMoves(r, d, k);
      MovingUnit(s, i, g, r, d, next, g + 1, k);
    } else {
      AnonStays(r, s.groups[g].agg, k);
      ShiftedScratch(r, k);
      StepKeys(r, d);
      StepKeys(Shift(r, k), d);
      DeclsFit(s, next, g + 1);
      AnonStaysOn(Step(r, d), Step(Shift(r, k), d), Decls(s, next, g + 1), |r.groups|, k);
      StayingUnit(s, i, g, r, d, next, g + 1, k);
    }
  }

  lemma AnonMovesIff(r: Layout, agg: Layout, k: nat)
    ensures Moves(r, Anon(agg), k) <==> Divides(AggAlign(r.cfg, agg), k)
  {}

  lemma MovesNothing(s: Layout, g: nat, r: Layout, k: nat)
    requires Lists(s) && |s.groups| <= g
    requires Fold(r, Decls(s, |s.members|, g)) == r && Fold(Shift(r, k), Decls(s, |s.members|, g)) == Shift(r, k)
    ensures MovesFrom(s, |s.members|, g, r, k)
  {
    hide Fold, Decls, Shift;
  }

  lemma RestingRests(s: Layout, i: nat, r: Layout)
    requires i <= |s.members| && |s.bits| == |s.members| && Resting(s, i, r)
    ensures AtRest(r)
  {}

  lemma {:induction false} MoveWalk(s: Layout, i: nat, g: nat, r: Layout, k: nat)
    requires WellFormed(s) && Lists(s) && LegalConfig(s.cfg) && i <= |s.members| && |s.bits| == |s.members|
    requires Walking(s, i, g, r) && Resting(s, i, r)
    ensures MovesFrom(s, i, g, r, k)
    decreases |s.members| - i
  {
    hide *;
    WalkFacts(s, i, g, r);
    RestingRests(s, i, r);
    if i == |s.members| {
      RebuiltWhole(s, g, r);
      FoldDone(s, g, r);
      FoldDone(s, g, Shift(r, k));
      MovesNothing(s, g, r, k);
    } else {
      RebuildsUnit(s, i, g, r);
      if GroupStarts(s, i, g) {
        StartedGroup(s, i, g);
        WalkAnon(s, i, g, r);
        WalkAnonFacts(s, i, g, r);
        RestsAnon(s, i, g, r);
        MoveWalk(s, i + s.groups[g].count, g + 1, Step(r, Anon(s.groups[g].agg)), k);
        FoldUnitAnon(s, i, g, Shift(r, k));
        BothGoOnFrom(s, i, g, r, Anon(s.groups[g].agg), i + s.groups[g].count, g + 1, k);
        AnonMoves(s, i, g, r, k);
      } else {
        WalkOwn(s, i, g, r);
        WalkOwnFacts(s, i, g, r);
        RestsOwn(s, i, g, r);
        MoveWalk(s, i + 1, g, Step(r, OwnAt(s, i)), k);
        FoldUnitOwn(s, i, g, Shift(r, k));
        BothGoOnFrom(s, i, g, r, OwnAt(s, i), i + 1, g, k);
        OwnMoves(s, i, g, r, k);
      }
    }
  }

  // ----- the exact condition

  lemma MovedBackIff(s: Layout, f: Layout, k: nat)
    ensures (Shifted(f.offsets, -(k as int)) == s.offsets && MovedAll(f.bits, -(k as int)) == s.bits
             && MovedGroups(f.groups, -(k as int)) == s.groups)
            <==> EntriesMoved(f, s, k)
  {
    var b: int := -(k as int);
    if Shifted(f.offsets, b) == s.offsets && MovedAll(f.bits, b) == s.bits && MovedGroups(f.groups, b) == s.groups {
      forall n | 0 <= n < |f.offsets| ensures f.offsets[n] == s.offsets[n] + k {
        assert s.offsets[n] == f.offsets[n] + b;
      }
      forall n | 0 <= n < |f.bits| ensures f.bits[n] == Moved(s.bits[n], k) {
        assert s.bits[n] == Moved(f.bits[n], b);
      }
      forall n | 0 <= n < |f.groups| ensures f.groups[n] == s.groups[n].(offset := s.groups[n].offset + k) {
        assert s.groups[n] == f.groups[n].(offset := f.groups[n].offset + b);
      }
    }
    MovedBack(s, k);
  }

  lemma {:induction false} FoldRests(r: Layout, ds: seq<Decl>)
    requires AtRest(r) && forall d :: d in ds ==> DeclFits(d)
    ensures AtRest(Fold(r, ds))
    decreases |ds|
  {
    hide Step, AtRest;
    if ds != [] {
      assert DeclFits(ds[0]);
      StepRests(r, ds[0]);
      FoldRests(Step(r, ds[0]), ds[1..]);
    }
  }

  lemma RunResting(s: Layout)
    requires Consistent(s) && !s.cfg.isUnion
    ensures AtRest(Replay(s, 0)) && Resting(s, 0, Empty(s.cfg).(size := 0))
  {
    DeclsFit(s, 0, 0);
    FoldRests(Empty(s.cfg).(size := 0), Decls(s, 0, 0));
  }

  lemma RelayoutGlue(s: Layout, e: Layout, start: nat)
    requires Lists(s) && MovesFrom(s, 0, 0, e, start)
    requires Fold(e, Decls(s, 0, 0)) == Replay(s, 0) && Fold(Shift(e, start), Decls(s, 0, 0)) == Replay(s, start)
    requires RelayoutFrom(s, start) == s ==> EntriesMoved(Replay(s, start), Replay(s, 0), start)
    requires Replay(s, start) == Shift(Replay(s, 0), start) ==> RelayoutFrom(s, start) == s
    ensures RelayoutFrom(s, start) == s <==> AllMove(s, 0, 0, start)
  {
    hide Lists, Fold, Decls, Replay, Shift, EntriesMoved, RelayoutFrom, AllMove;
  }

  /** relayout(start) leaves the relative layout of a run as it is exactly when every own member and
      every anonymous block moves along with the start. */
  lemma RelayoutFromIff(cfg: Config, ops: seq<Op>, start: nat)
    requires !cfg.isUnion && LegalConfig(cfg) && LegalOps(ops) && Replayable(Empty(cfg), ops)
    ensures var s := Run(Empty(cfg), ops);
            Lists(s) && (RelayoutFrom(s, start) == s <==> AllMove(s, 0, 0, start))
  {
    hide Run, Fold, Decls, AllMove, Walking, WellFormed;
    hide Replay, RelayoutFrom, EntriesMoved, LegalOps, Replayable, MovesFrom;
    hide Consistent, Resting, AtRest, LegalConfig, Agrees, Lists, Shift;
    var s, e := Run(Empty(cfg), ops), Empty(cfg).(size := 0);
    WalkStart(cfg, ops);
    WalkFacts(s, 0, 0, e);
    RunResting(s);
    MoveWalk(s, 0, 0, e, start);
    IncrementalIsBatch(cfg, ops);
    RelayoutOfConsistent(s);
    ReplayFromStart(s, start);
    RelayoutFromEntries(s, start);
    RelayoutGlue(s, e, start);
  }

  lemma ReplayFromStart(s: Layout, start: nat)
    ensures Replay(s, start) == Fold(Shift(Empty(s.cfg).(size := 0), start), Decls(s, 0, 0))
  {
    var e := Empty(s.cfg).(size := 0);
    assert Shift(e, start) == Empty(s.cfg).(size := start);
    hide Fold, Decls;
  }

  lemma RelayoutFromEntries(s: Layout, start: nat)
    requires Agrees(Replay(s, 0), s) && Relayout(s) == s
    ensures RelayoutFrom(s, start) == s ==> EntriesMoved(Replay(s, start), Replay(s, 0), start)
    ensures AtRest(Replay(s, 0)) && Replay(s, start) == Shift(Replay(s, 0), start) ==> RelayoutFrom(s, start) == s
  {
    var q, f := Replay(s, 0), Replay(s, start);
    if AtRest(q) && f == Shift(q, start) { RebasedShift(s, start); }
    hide Replay, Shift;
    if RelayoutFrom(s, start) == s { MovedBackIff(s, f, start); }
  }

  // ----- a class's guard

  /** Own bit-field i keeps its unit when the record starts k bytes further on, at a multiple of its
      members' alignment: under the Microsoft rules only a counting `:0` could fail to. */
  ghost predicate KeepsUnit(s: Layout, i: nat, k: nat)
    requires Lists(s) && i < |s.members|
  {
    FieldMovesWith(s, i, k) || (s.cfg.microsoft && s.bits[i].bitWidth > 0)
  }

  /** A power of two within the record's alignment divides every multiple of it. */
  lemma WithinDivides(a: nat, limit: nat, k: nat)
    requires IsPow2OrZero(a) && IsPow2(limit) && a <= limit && k % limit == 0
    ensures Divides(a, k)
  {
    if a != 0 {
      Pow2Divides(a, limit);
      DividesTransitive(a, limit, k);
    }
  }

  lemma MemberMovesIff(s: Layout, j: nat, limit: nat, k: nat)
    requires Lists(s) && j < |s.members| && LegalConfig(s.cfg) && IsPow2(limit) && k % limit == 0
    requires Asked(s, j) <= limit && ExplicitAt(s, j) <= limit
    requires LegalDecl(OwnAt(s, j)) && IsPow2OrZero(ExplicitAt(s, j))
    ensures MovesWith(s, j, k) <==> (s.bits[j].isBitField ==> KeepsUnit(s, j, k))
  {
    var c := PackedConfig(s.cfg, j in s.packed);
    FieldAlignPow2(c, OwnAt(s, j));
    WithinDivides(ExplicitAt(s, j), limit, k);
    hide FieldAlign, KeepsWindow, NaturalAlign, BitStorage, LegalDecl, FollowsBits, Divides;
    if !s.bits[j].isBitField || (s.cfg.microsoft && s.bits[j].bitWidth > 0 && Forward(s.bits[j]) == 0) {
      WithinDivides(FieldAlign(c, s.members[j].ty), limit, k);
    }
  }

  lemma GroupMoves(s: Layout, h: nat, limit: nat, k: nat)
    requires h < |s.groups| && LegalConfig(s.cfg) && IsPow2(limit) && k % limit == 0
    requires LegalDecl(Anon(s.groups[h].agg)) && AggAlign(s.cfg, s.groups[h].agg) <= limit
    ensures Divides(AggAlign(s.cfg, s.groups[h].agg), k)
  {
    CappedPow2(NaturalAlign(TypeOf(s.groups[h].agg)), s.cfg.pack);
    hide Sound;
    WithinDivides(AggAlign(s.cfg, s.groups[h].agg), limit, k);
  }

  lemma BlockSetting(s: Layout, limit: nat)
    requires Consistent(s) && LegalRecord(s) && LegalConfig(s.cfg) && limit == Replay(s, 0).maxAlign
    ensures Lists(s) && IsPow2(limit) && ExplicitPow2(s)
  {
    var e := Empty(s.cfg).(size := 0);
    hide Fold, Decls, LegalRecord, WellFormed;
    DeclsLegal(s, 0, 0);
    DeclsAlign(s, 0, 0);
    FoldPow2(e, Decls(s, 0, 0));
  }

  /** A class skips the replay when its members begin at a multiple of own_member_alignment(). The
      block laid out from 0 is then the one a replay from there gives, exactly when every bit-field
      keeps its unit. */
  lemma BlockAlignmentIff(cfg: Config, ops: seq<Op>, start: nat)
    requires !cfg.isUnion && LegalConfig(cfg) && LegalOps(ops) && Replayable(Empty(cfg), ops)
    requires var own := OwnMemberAlignment(Run(Empty(cfg), ops)); own != 0 && start % own == 0
    ensures var s := Run(Empty(cfg), ops);
            Lists(s) && (RelayoutFrom(s, start) == s <==>
              forall i :: 0 <= i < |s.members| && OwnMember(s, i) && s.bits[i].isBitField ==> KeepsUnit(s, i, start))
  {
    var s := Run(Empty(cfg), ops);
    var limit := Replay(s, 0).maxAlign;
    RelayoutFromIff(cfg, ops, start);
    OwnMemberAlignmentIsReplayed(cfg, ops);
    ReplayAsks(cfg, ops);
    WalkStart(cfg, ops);
    WalkFacts(s, 0, 0, Empty(cfg).(size := 0));
    BlockSetting(s, limit);
    hide Run, Replay, RelayoutFrom, Walking, Consistent, WellFormed, Decls;
    hide LegalDecl, MovesWith, KeepsUnit, OwnMember, LegalOps, Replayable, Asked, AggAlign, Reaches;
    forall j | 0 <= j < |s.members| && OwnMember(s, j)
      ensures MovesWith(s, j, start) <==> (s.bits[j].isBitField ==> KeepsUnit(s, j, start))
    {
      assert LegalDecl(OwnAt(s, j));
      MemberMovesIff(s, j, limit, start);
    }
    forall h | 0 <= h < |s.groups| ensures Divides(AggAlign(s.cfg, s.groups[h].agg), start) {
      assert LegalDecl(Anon(s.groups[h].agg));
      GroupMoves(s, h, limit, start);
    }
  }
}
