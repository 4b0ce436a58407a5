/** A record's alignment is exactly the largest that it and its declarations ask for. */
module RecordAlignment {
  import opened Alignment
  import opened RecordLayout
  import opened ReplayedLayout
  import opened Agreement
  import opened Placement
  import opened Windows
  import opened Units
  import opened Attributes

  // ----- what each member asks, read off the record

  /** Member i follows a nonzero bit-field, as a Microsoft `:0` must to count. */
  ghost predicate FollowsBits(s: Layout, i: nat)
    requires i <= |s.members| && |s.bits| == |s.members|
  {
    i > 0 && OwnMember(s, i - 1) && s.bits[i - 1].isBitField && s.bits[i - 1].bitWidth > 0
  }

  /** Own member i's alignment as the record takes it: a System V bit-field always has one, a
      Microsoft one where it opens a unit, and a `:0` only as a counting Microsoft boundary, which
      #pragma pack alone caps. */
  ghost function Asked(s: Layout, i: nat): nat
    requires Lists(s) && i < |s.members|
  {
    var ty, info := s.members[i].ty, s.bits[i];
    var align := FieldAlign(PackedConfig(s.cfg, i in s.packed), ty);
    if !info.isBitField then align
    else if info.bitWidth > 0 then (if s.cfg.microsoft && Forward(info) != 0 then 0 else align)
    else if s.cfg.microsoft && !s.cfg.isUnion && FollowsBits(s, i) then Capped(NaturalAlign(ty), s.cfg.pragmaPack)
    else 0
  }

  /** No own member from i and no anonymous block from g on asks for more than `align`. */
  ghost predicate Bounds(s: Layout, i: nat, g: nat, align: nat)
    requires Lists(s)
  {
    && (forall j :: i <= j < |s.members| && OwnMember(s, j) ==> Asked(s, j) <= align && ExplicitAt(s, j) <= align)
    && (forall h :: g <= h < |s.groups| ==> AggAlign(s.cfg, s.groups[h].agg) <= align)
  }

  /** Some own member from i or anonymous block from g on asks for just `align`. */
  ghost predicate Reaches(s: Layout, i: nat, g: nat, align: nat)
    requires Lists(s)
  {
    || (exists j :: i <= j < |s.members| && OwnMember(s, j) && (Asked(s, j) == align || ExplicitAt(s, j) == align))
    || (exists h :: g <= h < |s.groups| && AggAlign(s.cfg, s.groups[h].agg) == align)
  }

  // ----- what one declaration does

  /** The alignment a declaration asks for, but for its own aligned(N). */
  function Wants(r: Layout, d: Decl): nat {
    match d
    case Anon(agg) => AggAlign(r.cfg, agg)
    case Own(m, isBits, width, packed, _) =>
      var align := FieldAlign(PackedConfig(r.cfg, packed), m.ty);
      if !isBits then align
      else if !(m.name == "" && width == 0)
      then (if r.cfg.microsoft && SharesUnit(r, BitStorage(m.ty), width) then 0 else align)
      else if r.cfg.microsoft && !r.cfg.isUnion && r.previousBits then Capped(NaturalAlign(m.ty), r.cfg.pragmaPack)
      else 0
  }

  lemma FieldRaises(c: Layout, d: Decl)
    requires d.Own? && d.isBits && !d.packed && !(d.m.name == "" && d.width == 0)
    ensures AddBitField(c, d.m.name, d.m.ty, d.width).maxAlign == Max(c.maxAlign, Wants(c, d))
  {
    hide FieldAlign, BitStorage, OpenField, SharesUnit, Max;
    OpenRaises(c, d.m.ty, d.width);
  }

  lemma OpenRaises(c: Layout, ty: FieldType, width: nat)
    ensures OpenField(c, ty, width).maxAlign
            == Max(c.maxAlign,
                   if c.cfg.microsoft && SharesUnit(c, BitStorage(ty), width) then 0 else FieldAlign(c.cfg, ty))
  {
    hide AlignUp, FieldAlign, SysVBit, SysVWindow, BitStorage, CursorBit;
  }

  lemma OtherRaises(c: Layout, d: Decl)
    requires d.Own? && !d.packed && (d.isBits ==> d.m.name == "" && d.width == 0)
    ensures var q := if d.isBits then AddBitField(c, d.m.name, d.m.ty, d.width) else AddMember(c, d.m);
            q.maxAlign == Max(c.maxAlign, Wants(c, d))
  {
    hide AlignUp, FieldAlign, Capped, NaturalAlign, MemberBytes;
  }

  lemma OwnRaises(r: Layout, d: Decl)
    requires d.Own?
    ensures AddOwn(r, d).maxAlign == Max(r.maxAlign, Wants(r, d))
  {
    hide AddMember, AddBitField, FieldAlign, Capped, NaturalAlign, BitStorage, Max;
    var c, e := UnderPack(r, d.packed), d.(packed := false);
    assert Wants(c, e) == Wants(r, d);
    if d.isBits && !(d.m.name == "" && d.width == 0) { FieldRaises(c, e); } else { OtherRaises(c, e); }
  }

  lemma AlignedRaises(a: Layout, align: nat)
    requires |a.offsets| == |a.members| > 0 && |a.members| - 1 !in a.explicitAlign
    ensures ApplyMemberAlignment(a, align).maxAlign == Max(a.maxAlign, align)
  {
    hide AlignUp;
  }

  lemma StepRaises(r: Layout, d: Decl)
    requires ScratchKeysBelow(r)
    ensures Step(r, d).maxAlign == Max(Max(r.maxAlign, Wants(r, d)), if d.Own? then d.align else 0)
  {
    if d.Own? {
      OwnRaises(r, d);
      AddOwnGrows(r, d);
      AddOwnKeepsAttributes(r, d);
      AlignedRaises(AddOwn(r, d), d.align);
    }
    hide AddOwn, ApplyMemberAlignment, AlignUp, AggAlign, ShiftKeys, ShiftSet;
  }

  // ----- what the replay's cursor tells of the members before it

  ghost predicate KeepsTrack(s: Layout, i: nat, r: Layout)
    requires i <= |s.members| && |s.bits| == |s.members|
  {
    (r.active ==> r.nextBit > 0) && (r.previousBits <==> FollowsBits(s, i))
  }

  lemma OwnLeaves(r: Layout, d: Decl)
    requires d.Own? && LegalDecl(d)
    ensures var q := Step(r, d);
            (q.active ==> q.nextBit > 0) && (q.previousBits <==> d.isBits && d.width > 0)
  {
    hide AddOwn, AddMember, AddBitField, LegalDecl;
    var c := UnderPack(r, d.packed);
    if d.isBits && d.width > 0 { FieldLeaves(c, d); } else { OtherLeaves(c, d); }
    AddOwnCursor(r, d);
    AlignedCursor(AddOwn(r, d), d.align);
  }

  lemma AddOwnCursor(r: Layout, d: Decl)
    requires d.Own?
    ensures var c, q := UnderPack(r, d.packed), AddOwn(r, d);
            var a := if d.isBits then AddBitField(c, d.m.name, d.m.ty, d.width) else AddMember(c, d.m);
            q.active == a.active && q.nextBit == a.nextBit && q.previousBits == a.previousBits
  {
    hide AddMember, AddBitField, UnderPack;
  }

  lemma AlignedCursor(a: Layout, align: nat)
    ensures var q := ApplyMemberAlignment(a, align);
            q.active == a.active && q.nextBit == a.nextBit && q.previousBits == a.previousBits
  {
    hide AlignUp, Max, AlignIgnored;
  }

  lemma FieldLeaves(c: Layout, d: Decl)
    requires d.Own? && d.width > 0
    ensures var q := AddBitField(c, d.m.name, d.m.ty, d.width);
            (q.active ==> q.nextBit > 0) && q.previousBits
  {
    hide OpenField, BitStorage, Max;
  }

  lemma OtherLeaves(c: Layout, d: Decl)
    requires d.Own? && LegalDecl(d) && (d.isBits ==> d.width == 0)
    ensures var q := if d.isBits then AddBitField(c, d.m.name, d.m.ty, d.width) else AddMember(c, d.m);
            !q.active && !q.previousBits
  {
    hide AlignUp, FieldAlign, NaturalAlign, Capped, Max;
  }

  lemma AnonLeaves(r: Layout, agg: Layout)
    ensures var q := Step(r, Anon(agg)); !q.active && !q.previousBits
  {
    hide AlignUp, AggAlign, ShiftKeys, ShiftSet;
  }

  lemma TracksOwn(s: Layout, i: nat, g: nat, r: Layout)
    requires Lists(s) && i < |s.members| && WalksOwn(s, i, g, r)
    ensures KeepsTrack(s, i + 1, Step(r, OwnAt(s, i)))
  {
    hide Step, LegalDecl, Walking, Placed, OwnMember;
    OwnLeaves(r, OwnAt(s, i));
  }

  lemma TracksAnon(s: Layout, i: nat, g: nat, r: Layout)
    requires Lists(s) && g < |s.groups| && WalksAnon(s, i, g, r)
    ensures KeepsTrack(s, i + s.groups[g].count, Step(r, Anon(s.groups[g].agg)))
  {
    hide Step, LegalDecl, Walking, Placed;
    AnonLeaves(r, s.groups[g].agg);
    assert InGroup(s, g, i + s.groups[g].count - 1);
  }

  lemma MicrosoftShares(r: Layout, d: Decl)
    requires d.Own? && d.isBits && d.width > 0 && r.cfg.microsoft
    ensures Forward(Entry(r, d)) == if SharesUnit(r, BitStorage(d.m.ty), d.width) then r.nextBit else 0
  {
    hide AlignUp, FieldAlign, BitStorage;
  }

  lemma ZeroIsBoundary(d: Decl)
    requires d.Own? && d.isBits && LegalDecl(d)
    ensures d.m.name == "" && d.width == 0 <==> d.width == 0
  {}

  /** What the record shows of a member is what the replay took of it. */
  lemma AskedIsWanted(s: Layout, i: nat, g: nat, r: Layout)
    requires Lists(s) && i < |s.members| && WalksOwn(s, i, g, r) && KeepsTrack(s, i, r)
    requires r.cfg == s.cfg && Lists(r)
    ensures Asked(s, i) == Wants(r, OwnAt(s, i))
  {
    hide Step, LegalDecl, Walking, OwnMember, Entry, FieldAlign, BitStorage, FollowsBits, SharesUnit;
    var d := OwnAt(s, i);
    assert SharesUnit(r, BitStorage(d.m.ty), d.width) ==> r.active by { SharesOpen(r, BitStorage(d.m.ty), d.width); }
    if d.isBits {
      StepEntry(r, d);
      assert s.bits[i] == Entry(r, d);
      ZeroIsBoundary(d);
      if d.width > 0 && r.cfg.microsoft { MicrosoftShares(r, d); }
    }
  }

  lemma SharesOpen(r: Layout, storage: nat, width: nat)
    ensures SharesUnit(r, storage, width) ==> r.active
  {}

  // ----- the walk

  /** `align` is `low`, or the largest that the units from i and g on ask for above it. */
  ghost predicate Largest(s: Layout, i: nat, g: nat, low: nat, align: nat)
    requires Lists(s)
  {
    low <= align && Bounds(s, i, g, align) && (align == low || Reaches(s, i, g, align))
  }

  lemma LargestOwn(s: Layout, i: nat, g: nat, low: nat, align: nat)
    requires Lists(s) && i < |s.members| && OwnMember(s, i)
    requires Largest(s, i + 1, g, Max(Max(low, Asked(s, i)), ExplicitAt(s, i)), align)
    ensures Largest(s, i, g, low, align)
  {
    hide Asked, OwnMember, AggAlign;
  }

  lemma LargestAnon(s: Layout, i: nat, g: nat, low: nat, align: nat)
    requires Lists(s) && g < |s.groups| && s.groups[g].first == i
    requires Largest(s, i + s.groups[g].count, g + 1, Max(low, AggAlign(s.cfg, s.groups[g].agg)), align)
    ensures Largest(s, i, g, low, align)
  {
    forall j | i <= j < i + s.groups[g].count ensures !OwnMember(s, j) { assert InGroup(s, g, j); }
    hide Asked, OwnMember, AggAlign;
  }

  lemma LargestNone(s: Layout, g: nat, low: nat)
    requires Lists(s) && g >= |s.groups|
    ensures Largest(s, |s.members|, g, low, low)
  {}

  lemma MaxTwice(a: nat, b: nat)
    ensures Max(Max(a, b), 0) == Max(a, b)
  {}

  lemma WantsOfAnon(r: Layout, agg: Layout)
    ensures Wants(r, Anon(agg)) == AggAlign(r.cfg, agg)
  {}

  lemma StartedGroup(s: Layout, i: nat, g: nat)
    requires WellFormed(s) && GroupStarts(s, i, g)
    ensures g < |s.groups| && s.groups[g].first == i && |s.groups[g].agg.members| > 0
  {
    assert GroupFits(s, s.groups[g]);
  }

  lemma OwnDecl(s: Layout, i: nat)
    requires i < |s.members| && i < |s.bits|
    ensures OwnAt(s, i).Own? && OwnAt(s, i).align == ExplicitAt(s, i)
  {}

  lemma {:induction false} AskWalk(s: Layout, i: nat, g: nat, r: Layout)
    requires WellFormed(s) && Lists(s) && i <= |s.members| && |s.bits| == |s.members|
    requires Walking(s, i, g, r) && KeepsTrack(s, i, r)
    ensures Largest(s, i, g, r.maxAlign, Fold(r, Decls(s, i, g)).maxAlign)
    decreases |s.members| - i
  {
    hide *;
    WalkFacts(s, i, g, r);
    if i == |s.members| {
      RebuiltWhole(s, g, r);
      FoldDone(s, g, r);
      LargestNone(s, g, r.maxAlign);
    } else {
      RebuildsUnit(s, i, g, r);
      if GroupStarts(s, i, g) {
        var d := Anon(s.groups[g].agg);
        StartedGroup(s, i, g);
        WalkAnon(s, i, g, r);
        WalkAnonFacts(s, i, g, r);
        TracksAnon(s, i, g, r);
        AskWalk(s, i + s.groups[g].count, g + 1, Step(r, d));
        StepRaises(r, d);
        WantsOfAnon(r, s.groups[g].agg);
        MaxTwice(r.maxAlign, Wants(r, d));
        LargestAnon(s, i, g, r.maxAlign, Fold(r, Decls(s, i, g)).maxAlign);
      } else {
        WalkOwn(s, i, g, r);
        WalkOwnFacts(s, i, g, r);
        TracksOwn(s, i, g, r);
        AskWalk(s, i + 1, g, Step(r, OwnAt(s, i)));
        OwnDecl(s, i);
        StepRaises(r, OwnAt(s, i));
        AskedIsWanted(s, i, g, r);
        LargestOwn(s, i, g, r.maxAlign, Fold(r, Decls(s, i, g)).maxAlign);
      }
    }
  }

  lemma ReplayAsks(cfg: Config, ops: seq<Op>)
    requires LegalConfig(cfg) && Replayable(Empty(cfg), ops) && LegalOps(ops)
    ensures var s := Run(Empty(cfg), ops); Lists(s) && Largest(s, 0, 0, 1, Replay(s, 0).maxAlign)
  {
    hide Run, Fold, Decls, Walking, WellFormed, Largest, Consistent;
    var s, e := Run(Empty(cfg), ops), Empty(cfg).(size := 0);
    WalkStart(cfg, ops);
    WalkFacts(s, 0, 0, e);
    AskWalk(s, 0, 0, e);
  }

  /** A record's alignment is the largest of 1, what its tag asks, and what its members, bit-fields
      among them, anonymous blocks and aligned(N) ask: it is one of these, and none is larger. */
  lemma AlignmentIsTheLargestAskedFor(cfg: Config, ops: seq<Op>)
    requires LegalConfig(cfg) && Replayable(Empty(cfg), ops) && LegalOps(ops)
    ensures var s := Run(Empty(cfg), ops);
            && Lists(s) && 1 <= s.maxAlign && Bounds(s, 0, 0, s.maxAlign)
            && LargestTag(ops, s.tagAlign) && s.tagAlign <= s.maxAlign
            && (s.maxAlign == 1 || s.maxAlign == s.tagAlign || Reaches(s, 0, 0, s.maxAlign))
  {
    var s := Run(Empty(cfg), ops);
    ReplayAsks(cfg, ops);
    TagIsLargestAskedFor(cfg, ops);
    EmptyConsistent(cfg);
    RunConsistent(Empty(cfg), ops);
    assert s.maxAlign == Max(Replay(s, 0).maxAlign, s.tagAlign);
    hide Run, Replay, Asked, AggAlign, OwnMember, WellFormed, Reaches, LargestTag;
    BoundsMore(s, Replay(s, 0).maxAlign, s.maxAlign);
  }

  lemma BoundsMore(s: Layout, low: nat, high: nat)
    requires Lists(s) && Bounds(s, 0, 0, low) && low <= high
    ensures Bounds(s, 0, 0, high)
  {
    hide Asked, AggAlign, OwnMember;
  }
}
