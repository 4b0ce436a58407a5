/** A record's declarations one unit at a time: an own member, or a whole anonymous aggregate. */
module Units {
  import opened Alignment
  import opened RecordLayout
  import opened ReplayedLayout
  import opened Agreement
  import opened Placement
  import opened Windows

  // ----- what a replay has placed stays placed

  /** The entries of `r` come first among those of `q`. */
  ghost predicate Continues(r: Layout, q: Layout) {
    && |r.offsets| <= |q.offsets| && q.offsets[..|r.offsets|] == r.offsets
    && |r.bits| <= |q.bits| && q.bits[..|r.bits|] == r.bits
    && |r.groups| <= |q.groups| && q.groups[..|r.groups|] == r.groups
  }

  lemma AddContinues(r: Layout, d: Decl)
    requires d.Own?
    ensures var q := if d.isBits then AddBitField(r, d.m.name, d.m.ty, d.width) else AddMember(r, d.m);
            Continues(r, q) && |q.offsets| == |r.offsets| + 1 && |q.bits| == |r.bits| + 1
  {
    hide AlignUp, FieldAlign, BitStorage, SysVBit, SysVWindow, Max, MemberBytes, NaturalAlign, Capped;
  }

  lemma AddOwnContinues(r: Layout, d: Decl)
    requires d.Own?
    ensures var q := AddOwn(r, d);
            Continues(r, q) && |q.offsets| == |r.offsets| + 1 && |q.bits| == |r.bits| + 1
  {
    AddContinues(UnderPack(r, d.packed), d);
    hide AddMember, AddBitField;
  }

  lemma StepContinues(r: Layout, d: Decl)
    requires Lists(r)
    ensures Continues(r, Step(r, d))
  {
    if d.Own? {
      AddOwnContinues(r, d);
      AddOwnGrows(r, d);
      hide AddOwn, AlignUp, Max;
    } else {
      hide AlignUp, AggAlign, ShiftKeys, ShiftSet, Max;
    }
  }

  lemma ContinuesOn(r: Layout, p: Layout, q: Layout)
    requires Continues(r, p) && Continues(p, q)
    ensures Continues(r, q)
  {
    assert q.offsets[..|r.offsets|] == q.offsets[..|p.offsets|][..|r.offsets|];
    assert q.bits[..|r.bits|] == q.bits[..|p.bits|][..|r.bits|];
    assert q.groups[..|r.groups|] == q.groups[..|p.groups|][..|r.groups|];
  }

  lemma {:induction false} FoldContinues(r: Layout, ds: seq<Decl>)
    requires ScratchKeysBelow(r) && forall d :: d in ds ==> DeclFits(d)
    ensures Continues(r, Fold(r, ds))
    decreases |ds|
  {
    if ds != [] {
      var q := Step(r, ds[0]);
      StepContinues(r, ds[0]);
      StepKeys(r, ds[0]);
      FoldContinues(q, ds[1..]);
      ContinuesOn(r, q, Fold(q, ds[1..]));
    }
  }

  // ----- what a bit-field is recorded as

  lemma OpenSysV(r: Layout, ty: FieldType, width: nat)
    requires !r.cfg.microsoft
    ensures var storage := BitStorage(ty);
            var bit := SysVBit(r.cfg, CursorBit(r), storage * 8, width);
            var window := SysVWindow(r.cfg, bit, storage, width);
            && window * 8 <= bit
            && OpenField(r, ty, width) == (if r.cfg.isUnion then EndRun(r) else r).(
                 maxAlign := Max(r.maxAlign, FieldAlign(r.cfg, ty)), active := true,
                 unitOffset := window, unitSize := storage, nextBit := bit - window * 8)
  {
    hide AlignUp, BitStorage, SysVBit, SysVWindow, FieldAlign, Max;
  }

  /** The entry a bit-field gets. */
  function Entry(r: Layout, d: Decl): BitField
    requires d.Own? && d.isBits
  {
    var c := UnderPack(r, d.packed);
    if d.m.name == "" && d.width == 0
    then BitField(true, AddBoundary(c, d.m.ty).bits[|c.bits|].storageOffset, BitStorage(d.m.ty), 0, 0,
                  d.m.ty.isUnsigned, c.cfg.reverse)
    else FieldInfo(OpenField(c, d.m.ty, d.width), d.m.ty, d.width)
  }

  lemma StepEntry(r: Layout, d: Decl)
    requires d.Own? && d.isBits && Lists(r)
    ensures var q := Step(r, d); |q.bits| == |r.bits| + 1 && q.bits[|r.bits|] == Entry(r, d)
  {
    var c := UnderPack(r, d.packed);
    AddEntry(c, d);
    AddOwnGrows(r, d);
    AlignKeepsShape(AddOwn(r, d), d.align);
    hide AddBitField, AddBoundary, OpenField, FieldInfo, ApplyMemberAlignment;
  }

  lemma AddEntry(c: Layout, d: Decl)
    requires d.Own? && d.isBits
    ensures var q := AddBitField(c, d.m.name, d.m.ty, d.width);
            && |q.bits| == |c.bits| + 1
            && q.bits[|c.bits|] == Entry(c.(cfg := PackedConfig(c.cfg, false)), d.(packed := false))
  {
    hide AlignUp, BitStorage, FieldAlign, SysVBit, SysVWindow;
  }

  // ----- own members between the groups

  /** The groups before number g end at or before member i. */
  ghost predicate GroupsEnded(s: Layout, i: nat, g: nat) {
    forall h :: 0 <= h < g && h < |s.groups| ==> s.groups[h].first + s.groups[h].count <= i
  }

  lemma {:induction false} GroupsFollow(s: Layout, g: nat, h: nat)
    requires GroupsOrdered(s) && g <= h < |s.groups|
    ensures s.groups[g].first <= s.groups[h].first
    decreases h - g
  {
    if g < h { GroupsFollow(s, g, h - 1); }
  }

  lemma OwnUnitIsOwn(s: Layout, i: nat, g: nat)
    requires GroupsOrdered(s) && Synced(s, i, g) && GroupsEnded(s, i, g)
    requires forall h :: 0 <= h < |s.groups| ==> s.groups[h].count > 0
    requires !GroupStarts(s, i, g)
    ensures OwnMember(s, i)
  {
    forall h | 0 <= h < |s.groups| ensures !InGroup(s, h, i) {
      if h >= g { GroupsFollow(s, g, h); }
    }
  }

  // ----- walking the units of a record

  /** `q` places everything where `s` has it. */
  ghost predicate Lands(s: Layout, q: Layout) {
    q.offsets == s.offsets && q.bits == s.bits && q.groups == s.groups
  }

  /** `r` is the replay of `s` up to member i and group g, whose rest lands where `s` is. */
  ghost predicate Walking(s: Layout, i: nat, g: nat, r: Layout) {
    && WellFormed(s) && LegalRecord(s) && ExplicitPow2(s)
    && i <= |s.members| && Synced(s, i, g) && GroupsEnded(s, i, g)
    && Rebuilt(s, i, g, r) && r.cfg == s.cfg && ScratchKeysBelow(r)
    && Lands(s, Fold(r, Decls(s, i, g)))
  }

  /** What a replay has placed is where the record has it. */
  ghost predicate Placed(s: Layout, i: nat, g: nat, q: Layout) {
    && i <= |s.members| && Lists(s) && g <= |s.groups|
    && |q.members| == |q.bits| == |q.offsets| == i && |q.groups| == g
    && q.bits == s.bits[..i] && q.offsets == s.offsets[..i] && q.groups == s.groups[..g]
  }

  /** The unit at member i, and where it ends up. */
  ghost predicate WalksOwn(s: Layout, i: nat, g: nat, r: Layout)
    requires i < |s.members| && i < |s.bits| && i < |s.offsets|
  {
    var d := OwnAt(s, i);
    var q := Step(r, d);
    && Walking(s, i + 1, g, q) && OwnMember(s, i) && LegalDecl(d) && IsPow2OrZero(d.align)
    && Fold(r, Decls(s, i, g)) == Fold(q, Decls(s, i + 1, g))
    && Placed(s, i, g, r) && Placed(s, i + 1, g, q)
    && q.bits[i] == s.bits[i] && q.offsets[i] == s.offsets[i] && q.members[i] == s.members[i]
  }

  ghost predicate WalksAnon(s: Layout, i: nat, g: nat, r: Layout)
    requires g < |s.groups|
  {
    var gr := s.groups[g];
    var d, next := Anon(gr.agg), i + gr.count;
    var q := Step(r, d);
    && gr.first == i && i < next <= |s.members| == |s.bits| == |s.offsets|
    && Lists(gr.agg) && |gr.agg.members| == gr.count
    && Walking(s, next, g + 1, q) && LegalDecl(d) && DeclFits(d)
    && Fold(r, Decls(s, i, g)) == Fold(q, Decls(s, next, g + 1))
    && Placed(s, i, g, r) && Placed(s, next, g + 1, q)
  }

  lemma LandsPrefix(s: Layout, r: Layout, ds: seq<Decl>)
    requires ScratchKeysBelow(r) && (forall d :: d in ds ==> DeclFits(d)) && Lands(s, Fold(r, ds))
    ensures |r.bits| <= |s.bits| && r.bits == s.bits[..|r.bits|]
    ensures |r.offsets| <= |s.offsets| && r.offsets == s.offsets[..|r.offsets|]
    ensures |r.groups| <= |s.groups| && r.groups == s.groups[..|r.groups|]
  {
    FoldContinues(r, ds);
  }

  lemma GroupUnit(s: Layout, g: nat)
    requires WellFormed(s) && LegalRecord(s) && g < |s.groups|
    ensures Lists(s) && LegalDecl(Anon(s.groups[g].agg)) && DeclFits(Anon(s.groups[g].agg))
    ensures Lists(s.groups[g].agg) && |s.groups[g].agg.members| == s.groups[g].count > 0
  {
    assert GroupFits(s, s.groups[g]);
    hide LegalDecl;
    assert LegalDecl(Anon(s.groups[g].agg));
  }

  lemma WalkPlaced(s: Layout, i: nat, g: nat, q: Layout)
    requires WellFormed(s) && Rebuilt(s, i, g, q) && ScratchKeysBelow(q) && Lands(s, Fold(q, Decls(s, i, g)))
    ensures Placed(s, i, g, q)
  {
    DeclsFit(s, i, g);
    hide Fold, Decls;
    LandsPrefix(s, q, Decls(s, i, g));
  }

  /** The walk goes on once its replay and its position fit again. */
  lemma WalkGoesOn(s: Layout, i: nat, g: nat, r: Layout, d: Decl, next: nat, h: nat)
    requires Walking(s, i, g, r) && next <= |s.members| && Synced(s, next, h) && GroupsEnded(s, next, h)
    requires Rebuilt(s, next, h, Step(r, d)) && DeclFits(d)
    requires Fold(r, Decls(s, i, g)) == Fold(Step(r, d), Decls(s, next, h))
    ensures Walking(s, next, h, Step(r, d)) && Placed(s, next, h, Step(r, d)) && Placed(s, i, g, r)
  {
    hide Step, Fold, Decls, LegalRecord, WellFormed, DeclFits;
    hide ExplicitPow2, Rebuilt, Synced, GroupsEnded, Lands, Placed;
    StepKeys(r, d);
    StepKeepsConfig(r, d);
    WalkPlaced(s, i, g, r);
    WalkPlaced(s, next, h, Step(r, d));
  }

  lemma GroupEnds(s: Layout, i: nat, g: nat)
    requires GroupsEnded(s, i, g) && g < |s.groups| && s.groups[g].first == i
    ensures GroupsEnded(s, i + s.groups[g].count, g + 1)
  {}

  lemma WalkFacts(s: Layout, i: nat, g: nat, r: Layout)
    requires Walking(s, i, g, r)
    ensures WellFormed(s) && LegalRecord(s) && Synced(s, i, g) && GroupsEnded(s, i, g) && Rebuilt(s, i, g, r)
    ensures Lists(s) && |s.bits| == |s.offsets| == |s.members| && GroupsOrdered(s) && LegalRecord(s)
    ensures r.cfg == s.cfg && ScratchKeysBelow(r) && Lists(r) && |r.members| == |r.bits| == |r.offsets| == i
    ensures ExplicitPow2(s)
  {
    hide LegalRecord, Synced, GroupsEnded, Lands, ExplicitPow2;
  }

  lemma WalksAnonFrom(s: Layout, i: nat, g: nat, r: Layout)
    requires Lists(s) && GroupStarts(s, i, g) && i + s.groups[g].count <= |s.members|
    requires var gr := s.groups[g];
             var d, next := Anon(gr.agg), i + gr.count;
             && Lists(gr.agg) && |gr.agg.members| == gr.count && LegalDecl(d) && DeclFits(d)
             && Walking(s, next, g + 1, Step(r, d)) && Placed(s, i, g, r) && Placed(s, next, g + 1, Step(r, d))
             && Fold(r, Decls(s, i, g)) == Fold(Step(r, d), Decls(s, next, g + 1))
    ensures WalksAnon(s, i, g, r)
  {
    hide Step, Fold, Decls, LegalDecl, DeclFits, Walking, Placed;
  }

  lemma WalkAnon(s: Layout, i: nat, g: nat, r: Layout)
    requires Walking(s, i, g, r) && i < |s.members| && GroupStarts(s, i, g)
    ensures WellFormed(s) && WalksAnon(s, i, g, r)
  {
    hide Walking, Step, Fold, Decls, LegalDecl, LegalRecord;
    hide WellFormed, DeclFits, Rebuilt, Synced, GroupsEnded, Placed, WalksAnon;
    WalkFacts(s, i, g, r);
    GroupUnit(s, g);
    RebuildsUnit(s, i, g, r);
    FoldUnitAnon(s, i, g, r);
    GroupEnds(s, i, g);
    WalkGoesOn(s, i, g, r, Anon(s.groups[g].agg), i + s.groups[g].count, g + 1);
    WalksAnonFrom(s, i, g, r);
  }

  lemma OwnUnit(s: Layout, i: nat, g: nat)
    requires WellFormed(s) && LegalRecord(s) && ExplicitPow2(s) && Synced(s, i, g) && GroupsEnded(s, i, g)
    requires i < |s.members| && !GroupStarts(s, i, g)
    ensures Lists(s) && OwnMember(s, i) && LegalDecl(OwnAt(s, i)) && IsPow2OrZero(OwnAt(s, i).align)
    ensures !GroupPassed(s, i, g) && GroupsEnded(s, i + 1, g)
  {
    assert forall h :: 0 <= h < |s.groups| ==> GroupFits(s, s.groups[h]);
    OwnUnitIsOwn(s, i, g);
    hide LegalDecl;
    assert LegalDecl(OwnAt(s, i));
  }

  lemma WalkOwn(s: Layout, i: nat, g: nat, r: Layout)
    requires Walking(s, i, g, r) && i < |s.members| && !GroupStarts(s, i, g)
    ensures WellFormed(s) && Lists(s) && WalksOwn(s, i, g, r)
  {
    hide Step, Fold, Decls, LegalDecl, LegalRecord, WellFormed;
    hide ExplicitPow2, Rebuilt, Synced, GroupsEnded, Lands, OwnMember;
    OwnUnit(s, i, g);
    RebuildsUnit(s, i, g, r);
    FoldUnitOwn(s, i, g, r);
    WalkGoesOn(s, i, g, r, OwnAt(s, i), i + 1, g);
    OwnPlaced(s, i, g, Step(r, OwnAt(s, i)));
  }

  lemma OwnPlaced(s: Layout, i: nat, g: nat, q: Layout)
    requires Placed(s, i + 1, g, q) && Rebuilt(s, i + 1, g, q)
    ensures q.bits[i] == s.bits[i] && q.offsets[i] == s.offsets[i] && q.members[i] == s.members[i]
  {}

  lemma WalkOwnFacts(s: Layout, i: nat, g: nat, r: Layout)
    requires i < |s.members| && i < |s.bits| && i < |s.offsets| && WalksOwn(s, i, g, r)
    ensures var d := OwnAt(s, i);
            && Walking(s, i + 1, g, Step(r, d)) && OwnMember(s, i)
            && d.Own? && LegalDecl(d) && DeclFits(d) && IsPow2OrZero(d.align)
            && Fold(r, Decls(s, i, g)) == Fold(Step(r, d), Decls(s, i + 1, g))
  {
    hide Walking, Step, Fold, Decls, LegalDecl;
  }

  lemma WalkAnonFacts(s: Layout, i: nat, g: nat, r: Layout)
    requires g < |s.groups| && WalksAnon(s, i, g, r)
    ensures var next := i + s.groups[g].count;
            var d := Anon(s.groups[g].agg);
            && i < next <= |s.members| && Walking(s, next, g + 1, Step(r, d))
            && LegalDecl(d) && DeclFits(d) && Lists(s.groups[g].agg)
            && Fold(r, Decls(s, i, g)) == Fold(Step(r, d), Decls(s, next, g + 1))
  {
    hide Walking, Step, Fold, Decls, LegalDecl;
  }

  lemma WalkStart(cfg: Config, ops: seq<Op>)
    requires LegalConfig(cfg) && Replayable(Empty(cfg), ops) && LegalOps(ops)
    ensures var s := Run(Empty(cfg), ops);
            && Walking(s, 0, 0, Empty(s.cfg).(size := 0)) && s.cfg == cfg
            && Fold(Empty(s.cfg).(size := 0), Decls(s, 0, 0)) == Replay(s, 0)
            && Consistent(s)
  {
    var s := Run(Empty(cfg), ops);
    EmptyConsistent(cfg);
    RunConsistent(Empty(cfg), ops);
    RunSound(cfg, ops);
    RunConfig(Empty(cfg), ops);
    assert Lands(s, Replay(s, 0));
    hide Run, Fold, Decls, LegalRecord, WellFormed;
  }
}
