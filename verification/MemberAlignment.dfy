/** Every member is aligned as its type asks, in the record and in arrays of the record. */
module MemberAlignment {
  import opened Alignment
  import opened RecordLayout
  import opened ReplayedLayout
  import opened Agreement
  import opened Placement
  import opened RecordAlignment
  import opened Windows
  import opened Units
  import opened Translation

  /** A plain member starts on the first suitable byte after what is there, and nothing follows it;
      every union member starts at 0. */
  lemma PlainMemberPlacedTightly(r: Layout, m: Member)
    ensures var q, fa := AddMember(r, m), FieldAlign(r.cfg, m.ty);
            var at := q.offsets[|r.offsets|];
            if r.cfg.isUnion then at == 0 && q.size == Max(r.size, MemberBytes(m))
            else fa != 0 && FirstAligned(r.size, fa, at) && q.size == at + MemberBytes(m)
  {
    AlignUpIsFirst(r.size, FieldAlign(r.cfg, m.ty));
    hide AlignUp, FirstAligned;
  }

  /** An anonymous aggregate's block starts on the first byte its alignment allows. */
  lemma AnonymousPlacedTightly(r: Layout, agg: Layout)
    requires |agg.members| > 0
    ensures var q, fa := AddAnonymous(r, agg), AggAlign(r.cfg, agg);
            var at := q.groups[|r.groups|].offset;
            if r.cfg.isUnion then at == 0 && q.size == Max(r.size, agg.size)
            else fa != 0 && FirstAligned(r.size, fa, at) && q.size == at + agg.size
  {
    AlignUpIsFirst(r.size, AggAlign(r.cfg, agg));
    hide AlignUp, FirstAligned, ShiftKeys, ShiftSet, Shifted, MovedAll;
  }

  /** Completion adds just the padding that arrays need, and the byte C++ asks of an empty class, and
      ends an open bit-field run. */
  lemma CompletedSizeIsLeast(s: Layout, cppMin: bool)
    requires s.maxAlign != 0
    ensures var least := if cppMin && s.members == [] && s.size == 0 then 1 else s.size;
            && FirstAligned(least, s.maxAlign, Finalize(s, cppMin).size)
            && Finalize(s, cppMin) == s.(size := Finalize(s, cppMin).size, active := false,
                                         unitOffset := 0, unitSize := 0, nextBit := 0)
  {
    AlignUpIsFirst(if cppMin && s.members == [] && s.size == 0 then 1 else s.size, s.maxAlign);
    hide AlignUp, FirstAligned;
  }

  predicate SuitsDecl(cfg: Config, d: Decl, offset: int)
    requires d.Own?
  {
    Divides(FieldAlign(PackedConfig(cfg, d.packed), d.m.ty), offset) && Divides(d.align, offset)
  }

  lemma BothAlignments(x: int, fa: nat, align: nat)
    requires IsPow2(fa) && IsPow2(align) && x % fa == 0
    ensures AlignUp(x, align) % fa == 0 && AlignUp(x, align) % align == 0
  {
    AlignUpRounds(x, align);
    if align <= fa {
      Pow2Divides(align, fa);
      DividesTransitive(align, fa, x);
      AlignUpFixed(x, align);
    } else {
      Pow2Divides(fa, align);
      DividesTransitive(fa, align, AlignUp(x, align));
    }
  }

  lemma OwnOffset(r: Layout, d: Decl)
    requires d.Own? && !d.isBits && |r.offsets| == |r.members|
    ensures var fa := FieldAlign(PackedConfig(r.cfg, d.packed), d.m.ty);
            AddOwn(r, d).offsets == r.offsets + [if r.cfg.isUnion then 0 else AlignUp(r.size, fa)]
  {}

  lemma AlignedOffset(a: Layout, align: nat)
    requires |a.offsets| == |a.members| > 0 && |a.members| - 1 !in a.explicitAlign
    ensures var q, n := ApplyMemberAlignment(a, align), |a.members| - 1;
            && |q.offsets| == n + 1
            && q.offsets[n] == if align == 0 || a.cfg.isUnion then a.offsets[n] else AlignUp(a.offsets[n], align)
  {}

  lemma PlainOffsetSuits(isUnion: bool, size: nat, fa: nat, align: nat)
    requires IsPow2(fa) && IsPow2OrZero(align)
    ensures Divides(fa, PlainOffset(isUnion, size, fa, align)) && Divides(align, PlainOffset(isUnion, size, fa, align))
  {
    AlignUpRounds(size, fa);
    hide AlignUp;
    if isUnion {
      DivUnique(0, fa, 0, 0);
      if align != 0 { DivUnique(0, align, 0, 0); }
    } else if align != 0 {
      BothAlignments(AlignUp(size, fa), fa, align);
    }
  }

  lemma StepAligns(r: Layout, d: Decl)
    requires ScratchKeysBelow(r) && d.Own? && !d.isBits
    requires LegalConfig(r.cfg) && LegalDecl(d) && IsPow2OrZero(d.align)
    ensures |Step(r, d).offsets| == |r.offsets| + 1 && SuitsDecl(r.cfg, d, Step(r, d).offsets[|r.offsets|])
  {
    var fa, n := FieldAlign(PackedConfig(r.cfg, d.packed), d.m.ty), |r.offsets|;
    LegalFieldAlign(PackedConfig(r.cfg, d.packed), d.m.ty);
    PlainOffsetSuits(r.cfg.isUnion, r.size, fa, d.align);
    OwnOffset(r, d);
    AddOwnGrows(r, d);
    AddOwnKeepsAttributes(r, d);
    var a := AddOwn(r, d);
    AlignedOffset(a, d.align);
    hide AddOwn, AlignUp, FieldAlign, ApplyMemberAlignment, LegalDecl, Divides;
    assert Step(r, d).offsets[n] == PlainOffset(r.cfg.isUnion, r.size, fa, d.align);
  }

  lemma LegalFieldAlign(cfg: Config, ty: FieldType)
    requires IsPow2OrZero(cfg.pack) && IsPow2OrZero(ty.align)
    ensures IsPow2(FieldAlign(cfg, ty))
  {}

  /** The own plain members of `s` among the first i sit in `r` where their declarations ask. */
  ghost predicate AllSuited(s: Layout, i: nat, r: Layout)
    requires i <= |s.members| == |s.bits| && i <= |r.offsets|
  {
    forall k :: 0 <= k < i && OwnMember(s, k) && !s.bits[k].isBitField ==> SuitsDecl(s.cfg, OwnAt(s, k), r.offsets[k])
  }

  ghost predicate Suiting(s: Layout, i: nat, g: nat, r: Layout) {
    && WellFormed(s) && LegalRecord(s) && LegalConfig(s.cfg) && ExplicitPow2(s)
    && Synced(s, i, g) && Rebuilt(s, i, g, r) && r.cfg == s.cfg && ScratchKeysBelow(r) && AllSuited(s, i, r)
  }

  lemma OwnSuits(s: Layout, i: nat, g: nat, r: Layout)
    requires Suiting(s, i, g, r) && i < |s.members| && !GroupStarts(s, i, g)
    ensures Suiting(s, i + 1, g, Step(r, OwnAt(s, i)))
  {
    var d := OwnAt(s, i);
    assert SingleIfBits(s, i);
    OwnSuited(s, i, r);
    if g < |s.groups| { assert GroupFits(s, s.groups[g]); }
    hide Step, LegalDecl, GroupFits, SingleIfBits, LegalRecord, AllSuited;
    StepGrows(r, d);
    GrownRebuilds(s, i, g, r, Step(r, d));
    StepKeys(r, d);
  }

  lemma OwnSuited(s: Layout, i: nat, r: Layout)
    requires |s.bits| == |s.members| && i < |s.members| && LegalRecord(s) && LegalConfig(s.cfg) && ExplicitPow2(s)
    requires r.cfg == s.cfg && |r.offsets| == i && ScratchKeysBelow(r) && AllSuited(s, i, r)
    ensures var q := Step(r, OwnAt(s, i)); i + 1 <= |q.offsets| && AllSuited(s, i + 1, q)
  {
    var d := OwnAt(s, i);
    assert LegalDecl(d) && IsPow2OrZero(d.align);
    hide Step, LegalDecl, SuitsDecl, OwnMember, LegalRecord, AllSuited;
    var q := Step(r, d);
    StepGrows(r, d);
    StepContinues(r, d);
    StepAddsOffset(r, d);
    if !d.isBits { StepAligns(r, d); }
    AllSuitedGrows(s, i, r, q);
  }

  lemma AllSuitedGrows(s: Layout, i: nat, r: Layout, q: Layout)
    requires |s.bits| == |s.members| && i < |s.members| && |r.offsets| == i && |q.offsets| == i + 1
    requires AllSuited(s, i, r) && q.offsets[..i] == r.offsets
    requires !s.bits[i].isBitField ==> SuitsDecl(s.cfg, OwnAt(s, i), q.offsets[i])
    ensures AllSuited(s, i + 1, q)
  {
    hide SuitsDecl, OwnMember;
    assert forall k :: 0 <= k < i ==> q.offsets[k] == q.offsets[..i][k];
  }

  lemma StepAddsOffset(r: Layout, d: Decl)
    requires d.Own? && |r.offsets| == |r.members| && |r.bits| == |r.members|
    ensures |Step(r, d).offsets| == |r.offsets| + 1
  {
    StepGrows(r, d);
    hide Step;
  }

  lemma AnonSuits(s: Layout, i: nat, g: nat, r: Layout)
    requires Suiting(s, i, g, r) && GroupStarts(s, i, g)
    ensures Suiting(s, i + s.groups[g].count, g + 1, AddAnonymous(r, s.groups[g].agg))
  {
    var gr := s.groups[g];
    assert GroupFits(s, gr);
    var d := Anon(gr.agg);
    var q := AddAnonymous(r, gr.agg);
    StepRebuildsAnon(s, i, g, r);
    StepKeys(r, d);
    StepContinues(r, d);
    assert forall k :: 0 <= k < i ==> q.offsets[k] == q.offsets[..i][k];
    assert q.cfg == r.cfg && |q.offsets| == i + gr.count;
    hide AddAnonymous, LegalDecl, GroupFits, SingleIfBits, SuitsDecl;
    forall k | i <= k < i + gr.count ensures !OwnMember(s, k) { assert InGroup(s, g, k); }
    hide OwnMember;
  }

  lemma StepAnon(r: Layout, agg: Layout)
    ensures Step(r, Anon(agg)) == AddAnonymous(r, agg)
  {}

  lemma {:induction false} FoldSuits(s: Layout, i: nat, g: nat, r: Layout)
    requires Suiting(s, i, g, r)
    ensures var q := Fold(r, Decls(s, i, g)); |q.offsets| == |s.bits| == |s.members| && AllSuited(s, |s.members|, q)
    decreases |s.members| - i
  {
    hide AddAnonymous, LegalRecord, LegalDecl, AllSuited, ScratchKeysBelow, ExplicitPow2, LegalConfig, Step;
    if i == |s.members| {
      assert g == |s.groups| && |r.offsets| == i;
    } else if GroupStarts(s, i, g) {
      assert Step(r, Anon(s.groups[g].agg)) == AddAnonymous(r, s.groups[g].agg) by { StepAnon(r, s.groups[g].agg); }
      AnonSuits(s, i, g, r);
      FoldSuits(s, i + s.groups[g].count, g + 1, Step(r, Anon(s.groups[g].agg)));
    } else {
      OwnSuits(s, i, g, r);
      FoldSuits(s, i + 1, g, Step(r, OwnAt(s, i)));
    }
  }

  lemma RunSuits(cfg: Config, ops: seq<Op>)
    requires LegalConfig(cfg) && Replayable(Empty(cfg), ops) && LegalOps(ops)
    ensures var s := Run(Empty(cfg), ops);
            && |s.offsets| == |s.bits| == |s.members| && AllSuited(s, |s.members|, s)
            && Bounds(s, 0, 0, s.maxAlign)
            && IsPow2(s.maxAlign) && s.cfg == cfg && LegalRecord(s) && ExplicitPow2(s)
  {
    var s := Run(Empty(cfg), ops);
    EmptyConsistent(cfg);
    RunConsistent(Empty(cfg), ops);
    RunSound(cfg, ops);
    RunConfig(Empty(cfg), ops);
    AlignmentIsTheLargestAskedFor(cfg, ops);
    var e, r := Empty(s.cfg).(size := 0), Replay(s, 0);
    FoldSuits(s, 0, 0, e);
    assert r.offsets == s.offsets;
    hide Replay, Fold, Decls, Run, Consistent, Bounds, Reaches;
  }

  lemma MultipleOfMultiple(a: nat, size: nat, element: nat)
    requires a != 0 && size % a == 0
    ensures (element * size) % a == 0
  {
    var q := size / a;
    assert element * (q * a) == (element * q) * a;
    DivUnique(element * size, a, element * q, 0);
  }

  // ----- anonymous blocks

  /** Every block sits on its aggregate's alignment, as far as the packing leaves it. */
  ghost predicate BlocksAligned(r: Layout) {
    forall h :: 0 <= h < |r.groups| ==> BlockAligned(r, r.groups[h])
  }

  predicate BlockAligned(r: Layout, g: Group) {
    Divides(AggAlign(r.cfg, g.agg), g.offset) && AggAlign(r.cfg, g.agg) <= r.maxAlign
  }

  lemma AnonAligned(r: Layout, agg: Layout)
    ensures var q, n := AddAnonymous(r, agg), |r.groups|;
            && q.cfg == r.cfg && q.maxAlign >= r.maxAlign && n <= |q.groups| <= n + 1 && q.groups[..n] == r.groups
            && (|q.groups| > n ==> BlockAligned(q, q.groups[n]))
  {
    var fa := AggAlign(r.cfg, agg);
    AlignUpRounds(r.size, fa);
    DivUnique(0, fa, 0, 0);
    hide AlignUp, ShiftKeys, ShiftSet, Shifted, MovedAll;
  }

  lemma StepBlocksAligned(r: Layout, d: Decl)
    requires BlocksAligned(r) && Lists(r)
    ensures BlocksAligned(Step(r, d))
  {
    if d.Anon? { AnonAligned(r, d.agg); } else { StepGrows(r, d); StepMaxAlign(r, d); }
    hide AddAnonymous, AddOwn, ApplyMemberAlignment, AggAlign;
    StepKeepsConfig(r, d);
    forall h | 0 <= h < |Step(r, d).groups| ensures BlockAligned(Step(r, d), Step(r, d).groups[h]) {
      if h < |r.groups| {
        assert Step(r, d).groups[h] == Step(r, d).groups[..|r.groups|][h] == r.groups[h];
        assert BlockAligned(r, r.groups[h]);
      }
    }
  }

  lemma {:induction false} FoldBlocksAligned(r: Layout, ds: seq<Decl>)
    requires BlocksAligned(r) && ScratchKeysBelow(r) && forall d :: d in ds ==> DeclFits(d)
    ensures BlocksAligned(Fold(r, ds))
    decreases |ds|
  {
    hide Step, BlocksAligned;
    if ds != [] {
      assert DeclFits(ds[0]);
      StepBlocksAligned(r, ds[0]);
      StepKeys(r, ds[0]);
      FoldBlocksAligned(Step(r, ds[0]), ds[1..]);
    }
  }

  lemma BuildBlocksAligned(b: Body)
    requires Replayable(Empty(b.cfg), b.ops) && LegalBody(b)
    ensures BlocksAligned(Build(b))
  {
    var s := Run(Empty(b.cfg), b.ops);
    WalkStart(b.cfg, b.ops);
    DeclsFit(s, 0, 0);
    FoldBlocksAligned(Empty(s.cfg).(size := 0), Decls(s, 0, 0));
    var r := Replay(s, 0);
    assert r.groups == s.groups && r.maxAlign <= s.maxAlign;
    hide Run, Replay, Fold, Decls, Walking, Consistent, AggAlign, AlignUp;
    forall h | 0 <= h < |s.groups| ensures BlockAligned(Build(b), s.groups[h]) { assert BlockAligned(r, r.groups[h]); }
  }

  // ----- every plain member, flattened ones included

  /** The tighter of two packings; 0 is none. */
  function Tighter(a: nat, b: nat): nat {
    if a == 0 then b else Capped(a, b)
  }

  /** x suits member i: its type's alignment and its aligned(N), each capped by its own record's
      packing and by that of every record around, `cap` being the tightest outside of `s`. */
  ghost predicate SuitsMember(s: Layout, i: nat, cap: nat, x: int)
    decreases s
  {
    && i < |s.members| && i < |s.bits|
    && (OwnMember(s, i) ==>
          var d := OwnAt(s, i);
          && Divides(Capped(FieldAlign(PackedConfig(s.cfg, d.packed), d.m.ty), cap), x)
          && Divides(Capped(d.align, cap), x))
    && forall g :: 0 <= g < |s.groups| && InGroup(s, g, i) ==>
         SuitsMember(s.groups[g].agg, i - s.groups[g].first, Tighter(cap, s.cfg.pack), x)
  }

  /** A capped power of two divides what the power and its cap's record alignment divide. */
  lemma CappedSuits(a: nat, maxAlign: nat, cap: nat, start: int, offset: int)
    requires IsPow2(a) && IsPow2(maxAlign) && a <= maxAlign && IsPow2OrZero(cap)
    requires start % Capped(maxAlign, cap) == 0 && offset % a == 0
    ensures Capped(a, cap) != 0 && (start + offset) % Capped(a, cap) == 0
  {
    var c := Capped(a, cap);
    CappedPow2(a, cap);
    CappedPow2(maxAlign, cap);
    Pow2Divides(c, Capped(maxAlign, cap));
    DividesTransitive(c, Capped(maxAlign, cap), start);
    Pow2Divides(c, a);
    DividesTransitive(c, a, offset);
    SumOfMultiples(start, offset, c);
  }

  lemma CapTwice(align: nat, cap: nat, pack: nat)
    requires align != 0
    ensures Capped(align, Tighter(cap, pack)) == Capped(Capped(align, pack), cap)
  {}

  /** What a run's own plain member i is known to suit. */
  ghost predicate MemberSuited(s: Layout, i: nat)
    requires i < |s.members| && i < |s.bits| && i < |s.offsets|
  {
    var d := OwnAt(s, i);
    && SuitsDecl(s.cfg, d, s.offsets[i])
    && FieldAlign(PackedConfig(s.cfg, d.packed), d.m.ty) <= s.maxAlign && d.align <= s.maxAlign
    && IsPow2(s.maxAlign) && IsPow2(FieldAlign(PackedConfig(s.cfg, d.packed), d.m.ty)) && IsPow2OrZero(d.align)
  }

  lemma BuiltOwnSuited(b: Body, i: nat)
    requires Replayable(Empty(b.cfg), b.ops) && LegalBody(b)
    requires i < |Build(b).members| && i < |Build(b).bits| && OwnMember(Build(b), i) && !Build(b).bits[i].isBitField
    ensures i < |Build(b).offsets| && MemberSuited(Build(b), i)
  {
    var s := Run(Empty(b.cfg), b.ops);
    RunSuits(b.cfg, b.ops);
    assert OwnMember(s, i) by {
      forall g | 0 <= g < |s.groups| ensures !InGroup(s, g, i) { assert !InGroup(Build(b), g, i); }
    }
    var d := OwnAt(s, i);
    assert Asked(s, i) <= s.maxAlign && LegalDecl(d) && SuitsDecl(s.cfg, d, s.offsets[i]);
    LegalFieldAlign(PackedConfig(s.cfg, d.packed), d.m.ty);
    assert OwnAt(Build(b), i) == d;
    hide Run, FieldAlign, OwnMember, LegalDecl, Decls, AlignUp;
  }

  lemma OwnSuitsMember(s: Layout, i: nat, cap: nat, start: int)
    requires i < |s.members| && i < |s.bits| && i < |s.offsets| && !s.bits[i].isBitField && MemberSuited(s, i)
    requires IsPow2OrZero(cap) && Capped(s.maxAlign, cap) != 0 && start % Capped(s.maxAlign, cap) == 0
    ensures var d := OwnAt(s, i);
            && Divides(Capped(FieldAlign(PackedConfig(s.cfg, d.packed), d.m.ty), cap), start + s.offsets[i])
            && Divides(Capped(d.align, cap), start + s.offsets[i])
  {
    hide FieldAlign, Capped;
    var d := OwnAt(s, i);
    CappedSuits(FieldAlign(PackedConfig(s.cfg, d.packed), d.m.ty), s.maxAlign, cap, start, s.offsets[i]);
    if d.align != 0 { CappedSuits(d.align, s.maxAlign, cap, start, s.offsets[i]); } else { CappedZero(cap); }
  }

  lemma CappedZero(cap: nat)
    ensures Capped(0, cap) == 0
  {}

  /** The block of a group begins where its aggregate's alignment, so capped, is kept. */
  lemma BlockStart(s: Layout, g: nat, cap: nat, start: int)
    requires g < |s.groups| && BlockAligned(s, s.groups[g]) && IsPow2(s.maxAlign) && IsPow2(s.groups[g].agg.maxAlign)
    requires LegalConfig(s.cfg) && IsPow2OrZero(cap)
    requires Capped(s.maxAlign, cap) != 0 && start % Capped(s.maxAlign, cap) == 0
    ensures var gr, c := s.groups[g], Tighter(cap, s.cfg.pack);
            IsPow2OrZero(c) && Capped(gr.agg.maxAlign, c) != 0 && (start + gr.offset) % Capped(gr.agg.maxAlign, c) == 0
  {
    var gr := s.groups[g];
    var a := AggAlign(s.cfg, gr.agg);
    CapTwice(gr.agg.maxAlign, cap, s.cfg.pack);
    CappedPow2(gr.agg.maxAlign, s.cfg.pack);
    assert a == Capped(gr.agg.maxAlign, s.cfg.pack);
    hide AggAlign;
    CappedSuits(a, s.maxAlign, cap, start, gr.offset);
  }

  lemma EmbeddedOffset(s: Layout, g: nat, i: nat)
    requires Sound(s) && g < |s.groups| && InGroup(s, g, i)
    ensures var gr := s.groups[g];
            && Lists(s) && Lists(gr.agg) && i < |s.members| && i - gr.first < |gr.agg.members|
            && s.offsets[i] == gr.offset + gr.agg.offsets[i - gr.first]
            && s.bits[i].isBitField == gr.agg.bits[i - gr.first].isBitField
  {
    assert Embeds(s, s.groups[g]) && EmbedsMember(s, s.groups[g], i - s.groups[g].first);
  }

  /** `start` keeps the record's alignment, as far as `cap` leaves it. */
  predicate StartKeeps(s: Layout, cap: nat, start: int) {
    IsPow2OrZero(cap) && Capped(s.maxAlign, cap) != 0 && start % Capped(s.maxAlign, cap) == 0
  }

  lemma MemberSuitsAt(b: Body, i: nat, cap: nat, start: int)
    requires Replayable(Empty(b.cfg), b.ops) && LegalBody(b) && StartKeeps(Build(b), cap, start)
    requires i < |Build(b).members| && i < |Build(b).bits| && !Build(b).bits[i].isBitField
    ensures i < |Build(b).offsets| && SuitsMember(Build(b), i, cap, start + Build(b).offsets[i])
    decreases b, 1
  {
    hide Build, Sound, LegalRecord, FieldAlign, Capped;
    hide Tighter, AggAlign, OwnMember, MemberSuited, Replayable, LegalBody;
    var s := Build(b);
    BuildSound(b);
    SoundLists(s);
    if OwnMember(s, i) {
      BuiltOwnSuited(b, i);
      OwnSuitsMember(s, i, cap, start);
    }
    forall g | 0 <= g < |s.groups| && InGroup(s, g, i)
      ensures SuitsMember(s.groups[g].agg, i - s.groups[g].first, Tighter(cap, s.cfg.pack), start + s.offsets[i])
    {
      FlattenedSuitsAt(b, g, i, cap, start);
    }
  }

  lemma SoundLists(s: Layout)
    requires Sound(s)
    ensures Lists(s) && |s.offsets| == |s.bits| == |s.members|
  {}

  lemma GroupSetting(b: Body, g: nat) returns (inner: Body)
    requires Replayable(Empty(b.cfg), b.ops) && LegalBody(b) && g < |Build(b).groups|
    ensures inner < b && Build(b).groups[g].agg == Build(inner)
    ensures Replayable(Empty(inner.cfg), inner.ops) && LegalBody(inner)
    ensures IsPow2(Build(b).maxAlign) && IsPow2(Build(inner).maxAlign) && LegalConfig(Build(b).cfg)
    ensures BlockAligned(Build(b), Build(b).groups[g])
  {
    var k := GroupOrigin(b, g);
    inner := b.ops[k].inner;
    assert BuiltBy(b.ops[k], Build(b).groups[g].agg) && LegalConfig(b.cfg);
    assert b.ops[k] < b;
    hide Build, Sound, LegalRecord, Replayable, LegalOps;
    BuildConfig(b);
    BuildSound(b);
    BuildSound(inner);
    BuildBlocksAligned(b);
  }

  lemma FlattenedSuitsAt(b: Body, g: nat, i: nat, cap: nat, start: int)
    requires Replayable(Empty(b.cfg), b.ops) && LegalBody(b) && StartKeeps(Build(b), cap, start)
    requires var s := Build(b); Sound(s) && g < |s.groups| && InGroup(s, g, i) && i < |s.bits| && !s.bits[i].isBitField
    ensures var s := Build(b);
            i < |s.offsets|
            && SuitsMember(s.groups[g].agg, i - s.groups[g].first, Tighter(cap, s.cfg.pack), start + s.offsets[i])
    decreases b, 0
  {
    hide Build, Sound, LegalRecord, Capped, Tighter, SuitsMember, Replayable, LegalBody, BlockAligned;
    var s := Build(b);
    var inner := GroupSetting(b, g);
    EmbeddedOffset(s, g, i);
    BlockStart(s, g, cap, start);
    MemberSuitsAt(inner, i - s.groups[g].first, Tighter(cap, s.cfg.pack), start + s.groups[g].offset);
  }

  lemma BuildConfig(b: Body)
    requires Replayable(Empty(b.cfg), b.ops)
    ensures Build(b).cfg == b.cfg
  {
    EmptyConsistent(b.cfg);
    RunConfig(Empty(b.cfg), b.ops);
  }

  lemma BuildSizeAligned(b: Body)
    requires Replayable(Empty(b.cfg), b.ops) && LegalBody(b)
    ensures Build(b).maxAlign != 0 && Build(b).size % Build(b).maxAlign == 0
  {
    var s := Run(Empty(b.cfg), b.ops);
    RunSound(b.cfg, b.ops);
    AlignUpRounds(if b.cppMinObjectSize && s.size == 0 && |s.members| == 0 then 1 else s.size, s.maxAlign);
    hide Run, AlignUp, LegalRecord;
  }

  /** In a completed record, and in every element of an array of it, every plain member sits on its
      type's alignment and on its own aligned(N), as far as the packing of its own record and of
      those it is flattened into leaves them. */
  lemma MembersAreAligned(b: Body, i: nat, element: nat)
    requires Replayable(Empty(b.cfg), b.ops) && LegalBody(b)
    requires i < |Build(b).members| && i < |Build(b).bits| && !Build(b).bits[i].isBitField
    ensures var s := Build(b);
            && i < |s.offsets| && s.maxAlign != 0 && s.size % s.maxAlign == 0
            && SuitsMember(s, i, 0, element * s.size + s.offsets[i])
  {
    var s := Build(b);
    BuildSizeAligned(b);
    MultipleOfMultiple(s.maxAlign, s.size, element);
    hide Build, SuitsMember;
    MemberSuitsAt(b, i, 0, element * s.size);
  }
}
