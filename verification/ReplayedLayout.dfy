/** The incremental layout and the batch replay agree. */
module ReplayedLayout {
  import opened Alignment
  import opened RecordLayout

  // ----- runs of layout operations

  /** One record's declarations and attributes in source order; an anonymous member carries the
      body of its own, completed, type. */
  datatype Op =
    | OpMember(m: Member)
    | OpBits(name: string, ty: FieldType, width: nat)
    | OpAnon(inner: Body)
    | OpAlign(align: nat)
    | OpPack
    | OpTag(align: nat)

  datatype Body = Body(cfg: Config, ops: seq<Op>, cppMinObjectSize: bool)

  function Apply(s: Layout, op: Op): Layout
    decreases op, 0
  {
    match op
    case OpMember(m) => AddMember(s, m)
    case OpBits(name, ty, width) => AddBitField(s, name, ty, width)
    case OpAnon(inner) => AddAnonymous(s, Build(inner))
    case OpAlign(align) => ApplyMemberAlignment(s, align)
    case OpPack => ApplyMemberPacking(s)
    case OpTag(align) => ApplyTagAlignment(s, align)
  }

  function Run(s: Layout, ops: seq<Op>): Layout
    decreases ops, 1
  {
    if ops == [] then s else Run(Apply(s, ops[0]), ops[1..])
  }

  /** The completed record. */
  function Build(b: Body): Layout
    decreases b, 2
  {
    Finalize(Run(Empty(b.cfg), b.ops), b.cppMinObjectSize)
  }

  // ----- the recorded declarations of an extended record

  /** Every anonymous group ends at or before member `limit`. */
  ghost predicate GroupsWithin(s: Layout, limit: int) {
    forall g :: 0 <= g < |s.groups| ==> s.groups[g].first + s.groups[g].count <= limit
  }

  ghost predicate LastIsOwn(s: Layout) {
    GroupsWithin(s, |s.members| - 1)
  }

  function DropLast(s: Layout): Layout
    requires |s.members| > 0 && |s.offsets| == |s.members| && |s.bits| == |s.members|
  {
    var n := |s.members| - 1;
    s.(members := s.members[..n], offsets := s.offsets[..n], bits := s.bits[..n])
  }

  lemma DeclsPass(s: Layout, i: nat, g: nat)
    requires i < |s.members| == |s.bits| && GroupPassed(s, i, g)
    ensures Decls(s, i, g) == Decls(s, i, g + 1)
  {}

  lemma DeclsAnon(s: Layout, i: nat, g: nat)
    requires i < |s.members| == |s.bits| && GroupStarts(s, i, g)
    ensures Decls(s, i, g) == [Anon(s.groups[g].agg)] + Decls(s, i + s.groups[g].count, g + 1)
  {}

  lemma DeclsOwn(s: Layout, i: nat, g: nat)
    requires i < |s.members| == |s.bits| && !GroupPassed(s, i, g) && !GroupStarts(s, i, g)
    ensures Decls(s, i, g) == [OwnAt(s, i)] + Decls(s, i + 1, g)
  {}

  lemma DeclsDone(s: Layout, i: nat, g: nat)
    requires i >= |s.members|
    ensures Decls(s, i, g) == []
  {}

  lemma {:induction false} DeclsSnocOwn(s: Layout, i: nat, g: nat)
    requires |s.offsets| == |s.members| && |s.bits| == |s.members| && LastIsOwn(s) && i < |s.members|
    ensures Decls(s, i, g) == Decls(DropLast(s), i, g) + [OwnAt(s, |s.members| - 1)]
    decreases |s.members| - i, |s.groups| - g
  {
    hide Decls;
    var n, t := |s.members| - 1, DropLast(s);
    if GroupPassed(s, i, g) {
      DeclsSnocOwn(s, i, g + 1);
      DeclsPass(s, i, g);
      if i < n { DeclsPass(t, i, g); } else { DeclsDone(t, i, g); DeclsDone(t, i, g + 1); }
    } else if GroupStarts(s, i, g) {
      DeclsSnocOwn(s, i + s.groups[g].count, g + 1);
      DeclsAnon(s, i, g);
      DeclsAnon(t, i, g);
    } else if i == n {
      DeclsOwn(s, i, g);
      DeclsDone(s, i + 1, g);
      DeclsDone(t, i, g);
    } else {
      DeclsSnocOwn(s, i + 1, g);
      DeclsOwn(s, i, g);
      DeclsOwn(t, i, g);
    }
  }

  /** Group g is the first one at or after member i. */
  ghost predicate Synced(s: Layout, i: nat, g: nat) {
    i <= |s.members| && g <= |s.groups| && (g < |s.groups| ==> i <= s.groups[g].first)
  }

  /** `t` records what `s` does, then the anonymous group `agg`. */
  ghost predicate ExtendsByGroup(s: Layout, t: Layout, agg: Layout) {
    && |s.bits| == |s.members| && |t.bits| == |t.members|
    && GroupsOrdered(s) && GroupsWithin(s, |s.members|) && |agg.members| > 0
    && |t.members| == |s.members| + |agg.members|
    && |t.groups| == |s.groups| + 1 && t.groups[..|s.groups|] == s.groups
    && t.groups[|s.groups|].first == |s.members| && t.groups[|s.groups|].count == |agg.members|
    && t.groups[|s.groups|].agg == agg
    && forall i :: 0 <= i < |s.members| ==> OwnAt(t, i) == OwnAt(s, i)
  }

  lemma {:induction false} DeclsSnocAnon(s: Layout, t: Layout, agg: Layout, i: nat, g: nat)
    requires ExtendsByGroup(s, t, agg) && Synced(s, i, g)
    requires forall h :: 0 <= h < |s.groups| ==> s.groups[h].count > 0
    ensures Decls(t, i, g) == Decls(s, i, g) + [Anon(agg)]
    decreases |s.members| - i
  {
    hide Decls;
    if i == |s.members| {
      assert g == |s.groups|;
      DeclsAnon(t, i, g);
      DeclsDone(t, |t.members|, g + 1);
      DeclsDone(s, i, g);
    } else if GroupStarts(s, i, g) {
      assert t.groups[g] == s.groups[g];
      DeclsSnocAnon(s, t, agg, i + s.groups[g].count, g + 1);
      DeclsAnon(s, i, g);
      DeclsAnon(t, i, g);
    } else {
      assert g < |s.groups| ==> t.groups[g] == s.groups[g];
      assert OwnAt(t, i) == OwnAt(s, i);
      DeclsSnocAnon(s, t, agg, i + 1, g);
      DeclsOwn(s, i, g);
      DeclsOwn(t, i, g);
    }
  }

  /** What a replay reads of a record. */
  ghost predicate SameDecls(s: Layout, t: Layout) {
    && |s.bits| == |s.members| && |t.bits| == |t.members|
    && s.members == t.members && s.packed == t.packed && s.explicitAlign == t.explicitAlign
    && |s.groups| == |t.groups|
    && (forall g :: 0 <= g < |s.groups| ==> SameGroup(s.groups[g], t.groups[g]))
    && (forall i :: 0 <= i < |s.members| ==> SameShape(s.bits[i], t.bits[i]))
  }

  predicate SameGroup(a: Group, b: Group) {
    a.first == b.first && a.count == b.count && a.agg == b.agg
  }

  lemma {:induction false} SameDeclsReplay(s: Layout, t: Layout, i: nat, g: nat)
    requires SameDecls(s, t)
    ensures Decls(s, i, g) == Decls(t, i, g)
    decreases |s.members| - i, |s.groups| - g
  {
    if i < |s.members| {
      assert g < |s.groups| ==> SameGroup(s.groups[g], t.groups[g]);
      assert SameShape(s.bits[i], t.bits[i]);
      if GroupPassed(s, i, g) {
        SameDeclsReplay(s, t, i, g + 1);
      } else if GroupStarts(s, i, g) {
        SameDeclsReplay(s, t, i + s.groups[g].count, g + 1);
      } else {
        SameDeclsReplay(s, t, i + 1, g);
      }
    }
  }

  lemma FoldCons(r: Layout, d: Decl, ds: seq<Decl>)
    ensures Fold(r, [d] + ds) == Fold(Step(r, d), ds)
  {
    assert ([d] + ds)[1..] == ds;
  }

  lemma FoldDone(s: Layout, g: nat, r: Layout)
    ensures Fold(r, Decls(s, |s.members|, g)) == r
  {}

  lemma FoldUnitAnon(s: Layout, i: nat, g: nat, r: Layout)
    requires i < |s.members| == |s.bits| && GroupStarts(s, i, g)
    ensures var gr := s.groups[g];
            Fold(r, Decls(s, i, g)) == Fold(Step(r, Anon(gr.agg)), Decls(s, i + gr.count, g + 1))
  {
    hide Decls, Fold, Step;
    DeclsAnon(s, i, g);
    FoldCons(r, Anon(s.groups[g].agg), Decls(s, i + s.groups[g].count, g + 1));
  }

  lemma FoldUnitOwn(s: Layout, i: nat, g: nat, r: Layout)
    requires i < |s.members| == |s.bits| && !GroupPassed(s, i, g) && !GroupStarts(s, i, g)
    ensures Fold(r, Decls(s, i, g)) == Fold(Step(r, OwnAt(s, i)), Decls(s, i + 1, g))
  {
    hide Decls, Fold, Step, OwnAt;
    DeclsOwn(s, i, g);
    FoldCons(r, OwnAt(s, i), Decls(s, i + 1, g));
  }

  lemma {:induction false} FoldSnoc(r: Layout, ds: seq<Decl>, d: Decl)
    ensures Fold(r, ds + [d]) == Step(Fold(r, ds), d)
    decreases |ds|
  {
    if ds == [] {
      assert [d][1..] == [];
      assert Fold(r, [d]) == Fold(Step(r, d), []);
    } else {
      assert (ds + [d])[1..] == ds[1..] + [d];
      FoldSnoc(Step(r, ds[0]), ds[1..], d);
    }
  }

  // ----- a replay rebuilds what it replays

  /** `r` has replayed members ..i and groups ..g of `s`. */
  ghost predicate Rebuilt(s: Layout, i: nat, g: nat, r: Layout) {
    && i <= |s.members| == |s.bits| && g <= |s.groups|
    && r.members == s.members[..i] && |r.offsets| == i && |r.bits| == i && |r.groups| == g
    && (forall k :: 0 <= k < i ==> SameShape(r.bits[k], s.bits[k]))
    && (forall h :: 0 <= h < g ==> SameGroup(r.groups[h], s.groups[h]))
  }

  /** `q` is `r` with one member more, of declaration d's shape. */
  ghost predicate GrewBy(r: Layout, d: Decl, q: Layout)
    requires d.Own?
  {
    var n := |r.members|;
    && q.cfg == r.cfg && q.groups == r.groups
    && |q.members| == |q.offsets| == |q.bits| == n + 1
    && q.members[..n] == r.members && q.bits[..n] == r.bits
    && q.bits[n].isBitField == d.isBits
    && q.bits[n].bitWidth == (if d.isBits then d.width else 0)
    && q.members[n] == (if d.isBits then Member(d.m.name, d.m.ty, 1, false) else d.m)
  }

  lemma AddGrows(r: Layout, d: Decl)
    requires d.Own? && |r.offsets| == |r.members| && |r.bits| == |r.members|
    ensures GrewBy(r, d, if d.isBits then AddBitField(r, d.m.name, d.m.ty, d.width) else AddMember(r, d.m))
  {
    var a := if d.isBits then AddBitField(r, d.m.name, d.m.ty, d.width) else AddMember(r, d.m);
    var n := |r.members|;
    assert a.cfg == r.cfg && a.groups == r.groups;
    assert a.members[..n] == r.members;
    assert a.bits[..n] == r.bits;
  }

  lemma AddOwnGrows(r: Layout, d: Decl)
    requires d.Own? && |r.offsets| == |r.members| && |r.bits| == |r.members|
    ensures GrewBy(r, d, AddOwn(r, d))
  {
    AddGrows(UnderPack(r, d.packed), d);
  }

  lemma AlignKeepsShape(r: Layout, align: nat)
    ensures var q := ApplyMemberAlignment(r, align);
            && q.cfg == r.cfg && q.members == r.members && q.bits == r.bits && q.groups == r.groups
            && |q.offsets| == |r.offsets|
  {}

  lemma StepGrows(r: Layout, d: Decl)
    requires d.Own? && |r.offsets| == |r.members| && |r.bits| == |r.members|
    ensures GrewBy(r, d, Step(r, d))
  {
    AddOwnGrows(r, d);
    AlignKeepsShape(AddOwn(r, d), d.align);
  }

  lemma GrownRebuilds(s: Layout, i: nat, g: nat, r: Layout, q: Layout)
    requires Rebuilt(s, i, g, r) && i < |s.members| && SingleIfBits(s, i)
    requires GrewBy(r, OwnAt(s, i), q)
    ensures Rebuilt(s, i + 1, g, q)
  {
    assert q.members == s.members[..i + 1];
    forall k | 0 <= k < i + 1 ensures SameShape(q.bits[k], s.bits[k]) {
      if k < i {
        assert q.bits[k] == q.bits[..i][k];
        assert SameShape(r.bits[k], s.bits[k]);
      }
    }
  }

  lemma StepRebuildsAnon(s: Layout, i: nat, g: nat, r: Layout)
    requires Rebuilt(s, i, g, r) && GroupStarts(s, i, g) && GroupFits(s, s.groups[g])
    ensures Rebuilt(s, i + s.groups[g].count, g + 1, Step(r, Anon(s.groups[g].agg)))
  {
    var n := s.groups[g].count;
    var agg := s.groups[g].agg;
    var q := Step(r, Anon(agg));
    assert q.members == s.members[..i] + agg.members == s.members[..i + n];
    forall k | 0 <= k < i + n ensures SameShape(q.bits[k], s.bits[k]) {
      if k < i {
        assert SameShape(r.bits[k], s.bits[k]);
      } else {
        assert SameShape(s.bits[i + (k - i)], agg.bits[k - i]);
      }
    }
    assert SameGroup(q.groups[g], s.groups[g]);
  }

  /** The group at member i, or the own member there, is where the replay goes on. */
  lemma RebuildsUnit(s: Layout, i: nat, g: nat, r: Layout)
    requires WellFormed(s) && Synced(s, i, g) && Rebuilt(s, i, g, r) && i < |s.members|
    ensures |s.bits| == |s.members| && !GroupPassed(s, i, g)
    ensures if GroupStarts(s, i, g)
            then g < |s.groups| && 0 < s.groups[g].count && var next := i + s.groups[g].count;
                 && next <= |s.members| && Synced(s, next, g + 1)
                 && Rebuilt(s, next, g + 1, Step(r, Anon(s.groups[g].agg)))
            else Synced(s, i + 1, g) && Rebuilt(s, i + 1, g, Step(r, OwnAt(s, i)))
  {
    if g < |s.groups| { assert GroupFits(s, s.groups[g]); }
    assert SingleIfBits(s, i);
    hide Step, GroupFits, SingleIfBits;
    if GroupStarts(s, i, g) {
      StepRebuildsAnon(s, i, g, r);
    } else {
      StepGrows(r, OwnAt(s, i));
      GrownRebuilds(s, i, g, r, Step(r, OwnAt(s, i)));
    }
  }

  lemma RebuiltWhole(s: Layout, g: nat, r: Layout)
    requires Synced(s, |s.members|, g) && WellFormed(s) && Rebuilt(s, |s.members|, g, r)
    ensures g == |s.groups|
  {
    assert g < |s.groups| ==> GroupFits(s, s.groups[g]);
  }

  lemma {:induction false} FoldRebuilds(s: Layout, i: nat, g: nat, r: Layout)
    requires WellFormed(s) && Synced(s, i, g) && Rebuilt(s, i, g, r) && i <= |s.members|
    ensures Rebuilt(s, |s.members|, |s.groups|, Fold(r, Decls(s, i, g)))
    decreases |s.members| - i
  {
    hide *;
    if i == |s.members| {
      RebuiltWhole(s, g, r);
      FoldDone(s, g, r);
    } else {
      RebuildsUnit(s, i, g, r);
      if GroupStarts(s, i, g) {
        FoldUnitAnon(s, i, g, r);
        FoldRebuilds(s, i + s.groups[g].count, g + 1, Step(r, Anon(s.groups[g].agg)));
      } else {
        FoldUnitOwn(s, i, g, r);
        FoldRebuilds(s, i + 1, g, Step(r, OwnAt(s, i)));
      }
    }
  }

  // ----- a record that agrees with its replay

  /** `r` with the attributes a replay does not record. */
  function Tagged(r: Layout, explicit: map<nat, nat>, packed: set<nat>, tag: nat): Layout {
    r.(explicitAlign := explicit, packed := packed, tagAlign := tag, maxAlign := Max(r.maxAlign, tag))
  }

  predicate Agrees(r: Layout, s: Layout) {
    s == Tagged(r, s.explicitAlign, s.packed, s.tagAlign)
  }

  ghost predicate KeysBelow(s: Layout, limit: int) {
    && (forall k :: k in s.explicitAlign ==> k < limit)
    && (forall k :: k in s.packed ==> k < limit)
  }

  ghost predicate ExplicitPow2(s: Layout) {
    forall k :: k in s.explicitAlign ==> IsPow2(s.explicitAlign[k])
  }

  /** The incremental layout is what a replay would compute. */
  ghost predicate Consistent(s: Layout) {
    WellFormed(s) && KeysBelow(s, |s.members|) && ExplicitPow2(s) && Agrees(Replay(s, 0), s)
  }

  lemma TaggedMember(r: Layout, m: Member, e: map<nat, nat>, p: set<nat>, t: nat)
    ensures AddMember(Tagged(r, e, p, t), m) == Tagged(AddMember(r, m), e, p, t)
  {}

  lemma TaggedOpen(r: Layout, ty: FieldType, width: nat, e: map<nat, nat>, p: set<nat>, t: nat)
    ensures OpenField(Tagged(r, e, p, t), ty, width) == Tagged(OpenField(r, ty, width), e, p, t)
  {
    var s := Tagged(r, e, p, t);
    var q := if r.cfg.isUnion then EndRun(r) else r;
    var u := if s.cfg.isUnion then EndRun(s) else s;
    assert u == Tagged(q, e, p, t);
    assert CursorBit(u) == CursorBit(q);
  }

  lemma TaggedClose(r: Layout, ty: FieldType, width: nat, e: map<nat, nat>, p: set<nat>, t: nat)
    ensures CloseField(Tagged(r, e, p, t), ty, width) == Tagged(CloseField(r, ty, width), e, p, t)
  {}

  lemma TaggedBits(r: Layout, name: string, ty: FieldType, width: nat, e: map<nat, nat>, p: set<nat>, t: nat)
    ensures AddBitField(Tagged(r, e, p, t), name, ty, width) == Tagged(AddBitField(r, name, ty, width), e, p, t)
  {
    if name == "" && width == 0 {
      TaggedBoundary(r, ty, e, p, t);
      hide AddBoundary;
    } else {
      TaggedOpen(r, ty, width, e, p, t);
      TaggedClose(OpenField(r, ty, width), ty, width, e, p, t);
      hide OpenField, CloseField;
    }
  }

  lemma TaggedBoundary(r: Layout, ty: FieldType, e: map<nat, nat>, p: set<nat>, t: nat)
    ensures AddBoundary(Tagged(r, e, p, t), ty) == Tagged(AddBoundary(r, ty), e, p, t)
  {
    hide AlignUp, FieldAlign, NaturalAlign, Capped;
  }

  lemma TaggedAlign(r: Layout, align: nat, e: map<nat, nat>, p: set<nat>, t: nat)
    requires |r.offsets| == |r.members| && !AlignIgnored(r, align) && !AlignIgnored(Tagged(r, e, p, t), align)
    ensures ApplyMemberAlignment(Tagged(r, e, p, t), align)
         == Tagged(ApplyMemberAlignment(r, align), e[|r.members| - 1 := align], p, t)
  {}

  lemma TaggedAnon(r: Layout, agg: Layout, e: map<nat, nat>, p: set<nat>, t: nat)
    ensures AddAnonymous(Tagged(r, e, p, t), agg)
         == Tagged(AddAnonymous(r, agg), e + ShiftKeys(agg.explicitAlign, |r.members|, |agg.members|),
                   p + ShiftSet(agg.packed, |r.members|, |agg.members|), t)
  {}

  lemma RelayoutOfConsistent(s: Layout)
    requires WellFormed(s)
    ensures Relayout(s) == s <==> Agrees(Replay(s, 0), s)
  {
    var r := Replay(s, 0);
    assert Shifted(r.offsets, 0) == r.offsets;
    assert MovedAll(r.bits, 0) == r.bits;
    assert MovedGroups(r.groups, 0) == r.groups;
    var q := Relayout(s);
    assert q == Tagged(r, s.explicitAlign, s.packed, s.tagAlign).(members := s.members, cfg := s.cfg);
    ReplayRebuilds(s);
    assert r.members == s.members;
  }

  lemma ReplayRebuilds(s: Layout, start: nat := 0)
    requires WellFormed(s)
    ensures Rebuilt(s, |s.members|, |s.groups|, Replay(s, start))
    ensures Replay(s, start).cfg == s.cfg
  {
    FoldRebuilds(s, 0, 0, Empty(s.cfg).(size := start));
    FoldKeepsConfig(Empty(s.cfg).(size := start), Decls(s, 0, 0));
  }

  lemma {:induction false} FoldKeepsConfig(r: Layout, ds: seq<Decl>)
    ensures Fold(r, ds).cfg == r.cfg
    decreases |ds|
  {
    if ds != [] {
      StepKeepsConfig(r, ds[0]);
      FoldKeepsConfig(Step(r, ds[0]), ds[1..]);
    }
  }

  lemma StepKeepsConfig(r: Layout, d: Decl)
    ensures Step(r, d).cfg == r.cfg
  {
    if d.Own? { AlignKeepsShape(AddOwn(r, d), d.align); }
  }

  // ----- each operation keeps a record in agreement with its replay

  lemma ReplaySnocOwn(s: Layout, start: nat)
    requires |s.offsets| == |s.members| && |s.bits| == |s.members| && |s.members| > 0 && LastIsOwn(s)
    ensures Replay(s, start) == Step(Replay(DropLast(s), start), OwnAt(s, |s.members| - 1))
  {
    DeclsSnocOwn(s, 0, 0);
    FoldSnoc(Empty(s.cfg).(size := start), Decls(DropLast(s), 0, 0), OwnAt(s, |s.members| - 1));
  }

  lemma GroupsEndWithin(s: Layout)
    requires WellFormed(s)
    ensures GroupsWithin(s, |s.members|)
  {
    forall g | 0 <= g < |s.groups| ensures s.groups[g].first + s.groups[g].count <= |s.members| {
      assert GroupFits(s, s.groups[g]);
    }
  }

  /** Growing by one own member keeps the lists well formed. */
  lemma GrownWellFormed(s: Layout, d: Decl, t: Layout)
    requires WellFormed(s) && d.Own? && GrewBy(s, d, t)
    ensures WellFormed(t) && LastIsOwn(t)
  {
    GroupsEndWithin(s);
    var n := |s.members|;
    forall g | 0 <= g < |t.groups| ensures GroupFits(t, t.groups[g]) {
      assert GroupFits(s, s.groups[g]);
      var f, c := s.groups[g].first, s.groups[g].count;
      assert f + c <= n;
      assert t.members[f..f + c] == s.members[f..f + c] by {
        assert forall k :: f <= k < f + c ==> t.members[k] == t.members[..n][k];
      }
      forall k | 0 <= k < c ensures SameShape(t.bits[f + k], s.groups[g].agg.bits[k]) {
        assert t.bits[f + k] == t.bits[..n][f + k];
      }
    }
    forall i | 0 <= i < |t.members| ensures SingleIfBits(t, i) {
      if i < n {
        assert t.bits[i] == t.bits[..n][i] && t.members[i] == t.members[..n][i];
        assert SingleIfBits(s, i);
      }
    }
  }

  /** `t` adds declaration d, so far without attributes, to `s` just as to the replay of `s`. */
  lemma AddedKeeps(s: Layout, d: Decl, t: Layout)
    requires Consistent(s) && d.Own? && d.align == 0 && !d.packed && GrewBy(s, d, t)
    requires t == Tagged(Step(Replay(s, 0), d), s.explicitAlign, s.packed, s.tagAlign)
    requires d.isBits ==> d.m.count == 1 && !d.m.runtimeSized
    requires !d.isBits ==> d.width == 0
    ensures Consistent(t)
  {
    GrownWellFormed(s, d, t);
    assert SameDecls(DropLast(t), s) by {
      forall i | 0 <= i < |s.members| ensures SameShape(DropLast(t).bits[i], s.bits[i]) {
        assert t.bits[..|s.members|][i] == s.bits[i];
      }
      forall g | 0 <= g < |s.groups| ensures SameGroup(t.groups[g], s.groups[g]) {}
    }
    SameDeclsReplay(DropLast(t), s, 0, 0);
    ReplaySnocOwn(t, 0);
    assert OwnAt(t, |s.members|) == d;
  }

  lemma AddMemberKeeps(s: Layout, m: Member)
    requires Consistent(s)
    ensures Consistent(AddMember(s, m))
  {
    var d := Own(m, false, 0, false, 0);
    AddGrows(s, d);
    TaggedMember(Replay(s, 0), m, s.explicitAlign, s.packed, s.tagAlign);
    StepKeepsConfig(Replay(s, 0), d);
    StepGrows(Replay(s, 0), d);
    AddedKeeps(s, d, AddMember(s, m));
  }

  lemma AddBitFieldKeeps(s: Layout, name: string, ty: FieldType, width: nat)
    requires Consistent(s)
    ensures Consistent(AddBitField(s, name, ty, width))
  {
    var d := Own(Member(name, ty, 1, false), true, width, false, 0);
    AddGrows(s, d);
    TaggedBits(Replay(s, 0), name, ty, width, s.explicitAlign, s.packed, s.tagAlign);
    StepGrows(Replay(s, 0), d);
    AddedKeeps(s, d, AddBitField(s, name, ty, width));
  }

  lemma TagKeeps(s: Layout, align: nat)
    requires Consistent(s)
    ensures Consistent(ApplyTagAlignment(s, align))
  {
    var t := ApplyTagAlignment(s, align);
    assert forall g :: 0 <= g < |t.groups| ==> (GroupFits(s, s.groups[g]) ==> GroupFits(t, t.groups[g]));
    assert forall i :: 0 <= i < |t.members| ==> SingleIfBits(s, i) == SingleIfBits(t, i);
    assert SameDecls(s, t);
    SameDeclsReplay(s, t, 0, 0);
  }

  /** `s` with its last member recorded as packed, not yet laid out again. */
  function LastPacked(s: Layout): Layout
    requires s.members != []
  {
    s.(packed := s.packed + {|s.members| - 1})
  }

  lemma PackingRelays(s: Layout)
    ensures ApplyMemberPacking(s)
         == if s.members == [] || |s.members| - 1 in s.packed then s else Relayout(LastPacked(s))
  {
    hide Relayout;
  }

  /** What a relayout needs of a record holds of the one just packed. */
  ghost predicate Relayable(s: Layout) {
    |s.offsets| == |s.members| && WellFormed(s) && KeysBelow(s, |s.members|) && ExplicitPow2(s)
  }

  lemma LastPackedRelayable(s: Layout)
    requires Consistent(s) && s.members != []
    ensures Relayable(LastPacked(s))
  {
    SameListsWellFormed(s, LastPacked(s));
  }

  lemma PackKeeps(s: Layout)
    requires Consistent(s)
    ensures Consistent(ApplyMemberPacking(s))
  {
    hide Consistent, Relayout, ApplyMemberPacking, WellFormed;
    PackingRelays(s);
    if s.members != [] && |s.members| - 1 !in s.packed {
      LastPackedRelayable(s);
      RelayoutKeeps(LastPacked(s));
    }
  }

  lemma SameListsWellFormed(s: Layout, t: Layout)
    requires WellFormed(s) && s.members == t.members && s.bits == t.bits && s.groups == t.groups
    requires |t.offsets| == |t.members|
    ensures WellFormed(t)
  {
    forall g | 0 <= g < |t.groups| ensures GroupFits(t, t.groups[g]) {
      assert GroupFits(s, s.groups[g]);
    }
    forall i | 0 <= i < |t.members| ensures SingleIfBits(t, i) {
      assert SingleIfBits(s, i);
    }
  }

  /** Whatever was laid out before, a relayout leaves a record in agreement with its replay. */
  lemma RelayoutKeeps(s: Layout)
    requires Relayable(s)
    ensures Consistent(Relayout(s)) && SameDecls(Relayout(s), s)
    ensures Relayout(s) == Tagged(Replay(s, 0), s.explicitAlign, s.packed, s.tagAlign)
  {
    var r, t := Replay(s, 0), Relayout(s);
    ReplayRebuilds(s);
    assert r.members == s.members;
    assert Shifted(r.offsets, 0) == r.offsets;
    assert MovedAll(r.bits, 0) == r.bits;
    assert MovedGroups(r.groups, 0) == r.groups;
    assert t == Tagged(r, s.explicitAlign, s.packed, s.tagAlign);
    assert forall i :: 0 <= i < |s.members| ==> SameShape(t.bits[i], s.bits[i]);
    assert forall g :: 0 <= g < |s.groups| ==> SameGroup(t.groups[g], s.groups[g]);
    SameDeclsReplay(t, s, 0, 0);
    SameDeclsWellFormed(s, t);
  }

  lemma SameDeclsWellFormed(s: Layout, t: Layout)
    requires WellFormed(s) && SameDecls(t, s) && |t.offsets| == |t.members|
    ensures WellFormed(t)
  {
    forall g | 0 <= g < |t.groups| ensures GroupFits(t, t.groups[g]) {
      assert SameGroup(t.groups[g], s.groups[g]) && GroupFits(s, s.groups[g]);
      var f, agg := s.groups[g].first, s.groups[g].agg;
      forall k | 0 <= k < |agg.members| ensures SameShape(t.bits[f + k], agg.bits[k]) {
        assert SameShape(t.bits[f + k], s.bits[f + k]) && SameShape(s.bits[f + k], agg.bits[k]);
      }
    }
    forall g | 0 <= g < |t.groups| - 1
      ensures t.groups[g].first + t.groups[g].count <= t.groups[g + 1].first
    {
      assert SameGroup(t.groups[g], s.groups[g]) && SameGroup(t.groups[g + 1], s.groups[g + 1]);
    }
    forall i | 0 <= i < |t.members| ensures SingleIfBits(t, i) {
      assert SingleIfBits(s, i) && SameShape(t.bits[i], s.bits[i]);
    }
  }

  /** An aggregate an anonymous member may carry. */
  ghost predicate Carried(agg: Layout) {
    |agg.members| > 0 && WellFormed(agg) && KeysBelow(agg, |agg.members|) && ExplicitPow2(agg)
  }

  lemma AddAnonymousKeeps(s: Layout, agg: Layout)
    requires Consistent(s) && Carried(agg)
    ensures Consistent(AddAnonymous(s, agg))
  {
    var t, n := AddAnonymous(s, agg), |s.members|;
    GroupsEndWithin(s);
    AnonWellFormed(s, agg);
    forall i | 0 <= i < n ensures OwnAt(t, i) == OwnAt(s, i) {}
    assert t.groups[..|s.groups|] == s.groups;
    forall h | 0 <= h < |s.groups| ensures s.groups[h].count > 0 { assert GroupFits(s, s.groups[h]); }
    DeclsSnocAnon(s, t, agg, 0, 0);
    FoldSnoc(Empty(s.cfg).(size := 0), Decls(s, 0, 0), Anon(agg));
    TaggedAnon(Replay(s, 0), agg, s.explicitAlign, s.packed, s.tagAlign);
  }

  lemma AnonKeepsGroup(s: Layout, agg: Layout, g: nat)
    requires WellFormed(s) && Carried(agg) && g < |s.groups| && GroupFits(s, s.groups[g])
    ensures GroupFits(AddAnonymous(s, agg), s.groups[g])
  {
    var t := AddAnonymous(s, agg);
    var f, c := s.groups[g].first, s.groups[g].count;
    assert t.members[f..f + c] == s.members[f..f + c];
    forall k | 0 <= k < c ensures SameShape(t.bits[f + k], s.groups[g].agg.bits[k]) {
      assert t.bits[f + k] == s.bits[f + k];
    }
  }

  lemma AnonAddsGroup(s: Layout, agg: Layout)
    requires WellFormed(s) && Carried(agg)
    ensures var t := AddAnonymous(s, agg);
            |t.groups| == |s.groups| + 1 && t.groups[..|s.groups|] == s.groups && GroupFits(t, t.groups[|s.groups|])
  {
    var t, n := AddAnonymous(s, agg), |s.members|;
    assert t.members[n..n + |agg.members|] == agg.members;
  }

  lemma AnonAttributes(s: Layout, agg: Layout)
    ensures var t, n := AddAnonymous(s, agg), |s.members|;
            && |t.members| == n + |agg.members|
            && t.explicitAlign == s.explicitAlign + ShiftKeys(agg.explicitAlign, n, |agg.members|)
            && t.packed == s.packed + ShiftSet(agg.packed, n, |agg.members|)
  {
    hide AlignUp, AggAlign, ShiftKeys, ShiftSet, Shifted, MovedAll, Max;
  }

  lemma AnonKeys(s: Layout, agg: Layout)
    requires KeysBelow(s, |s.members|) && ExplicitPow2(s)
    requires KeysBelow(agg, |agg.members|) && ExplicitPow2(agg)
    ensures var t := AddAnonymous(s, agg); KeysBelow(t, |t.members|) && ExplicitPow2(t)
  {
    hide AddAnonymous, ShiftKeys, ShiftSet, IsPow2;
    AnonAttributes(s, agg);
    var n, m := |s.members|, |agg.members|;
    ShiftedKeys(agg.explicitAlign, agg.packed, n, m);
    var t := AddAnonymous(s, agg);
    forall k | k in t.explicitAlign ensures k < |t.members| && IsPow2(t.explicitAlign[k]) {
      if k in ShiftKeys(agg.explicitAlign, n, m) { assert IsPow2(agg.explicitAlign[k - n]); }
    }
  }

  lemma ShiftedKeys(e: map<nat, nat>, p: set<nat>, n: nat, m: nat)
    ensures forall k :: k in ShiftKeys(e, n, m) ==>
              n <= k < n + m && k - n in e && ShiftKeys(e, n, m)[k] == e[k - n]
    ensures forall k :: k in ShiftSet(p, n, m) ==> n <= k < n + m
  {}

  lemma AnonSingleIfBits(s: Layout, agg: Layout, i: nat)
    requires WellFormed(s) && WellFormed(agg) && i < |s.members| + |agg.members|
    ensures SingleIfBits(AddAnonymous(s, agg), i)
  {
    var n := |s.members|;
    if i < n { assert SingleIfBits(s, i); } else { assert SingleIfBits(agg, i - n); }
  }

  lemma AnonWellFormed(s: Layout, agg: Layout)
    requires WellFormed(s) && KeysBelow(s, |s.members|) && ExplicitPow2(s) && Carried(agg)
    ensures var t := AddAnonymous(s, agg);
            WellFormed(t) && KeysBelow(t, |t.members|) && ExplicitPow2(t)
  {
    var t, n := AddAnonymous(s, agg), |s.members|;
    AnonKeys(s, agg);
    AnonAddsGroup(s, agg);
    GroupsEndWithin(s);
    forall g | 0 <= g < |t.groups| ensures GroupFits(t, t.groups[g]) {
      if g < |s.groups| {
        assert t.groups[g] == s.groups[g] && GroupFits(s, s.groups[g]);
        AnonKeepsGroup(s, agg, g);
      }
    }
    forall g | 0 <= g < |t.groups| - 1
      ensures t.groups[g].first + t.groups[g].count <= t.groups[g + 1].first
    {
      assert t.groups[g] == s.groups[g];
      if g + 1 < |s.groups| { assert t.groups[g + 1] == s.groups[g + 1]; }
    }
    forall i | 0 <= i < |t.members| ensures SingleIfBits(t, i) { AnonSingleIfBits(s, agg, i); }
  }

  // ----- aligned(N) on the last member

  ghost predicate ScratchKeysBelow(r: Layout) {
    |r.offsets| == |r.members| && |r.bits| == |r.members| && forall k :: k in r.explicitAlign ==> k < |r.members|
  }

  ghost predicate DeclFits(d: Decl) {
    d.Anon? ==> |d.agg.offsets| == |d.agg.members| && |d.agg.bits| == |d.agg.members|
  }

  lemma StepKeys(r: Layout, d: Decl)
    requires ScratchKeysBelow(r) && DeclFits(d)
    ensures ScratchKeysBelow(Step(r, d))
  {
    if d.Own? {
      StepGrows(r, d);
      AddOwnKeepsAttributes(r, d);
    } else {
      assert forall k :: k in Step(r, d).explicitAlign ==>
        k in r.explicitAlign || k in ShiftKeys(d.agg.explicitAlign, |r.members|, |d.agg.members|);
    }
  }

  lemma AddOwnKeepsAttributes(r: Layout, d: Decl)
    requires d.Own?
    ensures KeepsAttributes(r, AddOwn(r, d))
  {
    AddKeepsAttributes(UnderPack(r, d.packed), d);
    hide AddMember, AddBitField;
  }

  /** `q` has one member more than `r`, and the same attributes recorded. */
  predicate KeepsAttributes(r: Layout, q: Layout) {
    && q.explicitAlign == r.explicitAlign && q.packed == r.packed && q.tagAlign == r.tagAlign
    && |q.members| == |r.members| + 1
  }

  lemma AddKeepsAttributes(r: Layout, d: Decl)
    requires d.Own?
    ensures KeepsAttributes(r, AddMember(r, d.m)) && KeepsAttributes(r, AddBitField(r, d.m.name, d.m.ty, d.width))
  {
    hide AlignUp, FieldAlign, NaturalAlign, Capped, Max, BitStorage, SysVBit, SysVWindow, CursorBit, MemberBytes;
  }

  lemma {:induction false} FoldKeys(r: Layout, ds: seq<Decl>)
    requires ScratchKeysBelow(r) && forall d :: d in ds ==> DeclFits(d)
    ensures ScratchKeysBelow(Fold(r, ds))
    decreases |ds|
  {
    if ds != [] {
      StepKeys(r, ds[0]);
      FoldKeys(Step(r, ds[0]), ds[1..]);
    }
  }

  lemma {:induction false} DeclsFit(s: Layout, i: nat, g: nat)
    requires WellFormed(s)
    ensures forall d :: d in Decls(s, i, g) ==> DeclFits(d)
    decreases |s.members| - i, |s.groups| - g
  {
    if i >= |s.members| {
    } else if GroupPassed(s, i, g) {
      DeclsFit(s, i, g + 1);
    } else if GroupStarts(s, i, g) {
      assert GroupFits(s, s.groups[g]);
      DeclsFit(s, i + s.groups[g].count, g + 1);
    } else {
      DeclsFit(s, i + 1, g);
    }
  }

  /** Aligning twice is aligning once to the larger of two powers of two. */
  lemma AlignTwice(a: Layout, a0: nat, a1: nat)
    requires |a.offsets| == |a.members| > 0 && |a.members| - 1 !in a.explicitAlign
    requires IsPow2OrZero(a0) && IsPow2(a1) && a0 < a1
    ensures ApplyMemberAlignment(ApplyMemberAlignment(a, a0), a1) == ApplyMemberAlignment(a, a1)
    ensures !AlignIgnored(ApplyMemberAlignment(a, a0), a1)
  {
    if a0 != 0 {
      var n := |a.members| - 1;
      var q, t := ApplyMemberAlignment(a, a0), ApplyMemberAlignment(a, a1);
      assert a.explicitAlign[n := a0][n := a1] == a.explicitAlign[n := a1];
      if !a.cfg.isUnion {
        Pow2Divides(a0, a1);
        AlignUpTwice(a.offsets[n], a0, a1);
        assert a.offsets[n := q.offsets[n]][n := t.offsets[n]] == a.offsets[n := t.offsets[n]];
      }
    }
  }

  lemma AlignKeeps(s: Layout, align: nat)
    requires Consistent(s) && IsPow2OrZero(align) && (|s.members| == 0 || LastIsOwn(s))
    ensures Consistent(ApplyMemberAlignment(s, align))
  {
    if !AlignIgnored(s, align) {
      var t := ApplyMemberAlignment(s, align);
      SameListsWellFormed(s, t);
      RealignedReplay(s, align);
      var r := Replay(s, 0);
      ReplayRebuilds(s);
      TaggedAlign(r, align, s.explicitAlign, s.packed, s.tagAlign);
    }
  }

  /** Replaying after a larger aligned(N) on the last member is aligning what was replayed. */
  lemma RealignedReplay(s: Layout, align: nat)
    requires WellFormed(s) && ExplicitPow2(s) && |s.members| > 0 && LastIsOwn(s)
    requires IsPow2(align) && !AlignIgnored(s, align)
    ensures Replay(ApplyMemberAlignment(s, align), 0) == ApplyMemberAlignment(Replay(s, 0), align)
    ensures !AlignIgnored(Replay(s, 0), align)
  {
    var d, r0 := OwnAt(s, |s.members| - 1), Replay(DropLast(s), 0);
    RealignedDecls(s, align);
    LastUnaligned(s);
    assert d.align < align;
    assert d.align != 0 ==> IsPow2(d.align);
    RealignedStep(r0, d, align);
  }

  lemma RealignedStep(r0: Layout, d: Decl, align: nat)
    requires d.Own? && IsPow2OrZero(d.align) && IsPow2(align) && d.align < align
    requires var a := AddOwn(r0, d); |a.offsets| == |a.members| > 0 && |a.members| - 1 !in a.explicitAlign
    ensures Step(r0, d.(align := align)) == ApplyMemberAlignment(Step(r0, d), align)
    ensures !AlignIgnored(Step(r0, d), align)
  {
    var a := AddOwn(r0, d);
    assert AddOwn(r0, d.(align := align)) == a;
    AlignTwice(a, d.align, align);
  }

  lemma RealignedDecls(s: Layout, align: nat)
    requires WellFormed(s) && |s.members| > 0 && LastIsOwn(s) && !AlignIgnored(s, align)
    ensures var d, r0 := OwnAt(s, |s.members| - 1), Replay(DropLast(s), 0);
            && Replay(s, 0) == Step(r0, d)
            && Replay(ApplyMemberAlignment(s, align), 0) == Step(r0, d.(align := align))
  {
    var t := ApplyMemberAlignment(s, align);
    AlignKeepsShape(s, align);
    assert OnlyLastRealigned(s, t, align);
    RealignedSnoc(s, t, align);
    hide ApplyMemberAlignment, Replay, Step, WellFormed;
  }

  /** `t` records what `s` does but for the last member's aligned(N). */
  ghost predicate OnlyLastRealigned(s: Layout, t: Layout, align: nat) {
    && Lists(s) && Lists(t) && s.members != []
    && s.cfg == t.cfg && s.members == t.members && s.bits == t.bits && s.groups == t.groups && s.packed == t.packed
    && t.explicitAlign == s.explicitAlign[|s.members| - 1 := align]
  }

  lemma RealignedSnoc(s: Layout, t: Layout, align: nat)
    requires OnlyLastRealigned(s, t, align) && LastIsOwn(s)
    ensures var d, r0 := OwnAt(s, |s.members| - 1), Replay(DropLast(s), 0);
            Replay(s, 0) == Step(r0, d) && Replay(t, 0) == Step(r0, d.(align := align))
  {
    assert LastIsOwn(t);
    hide Replay, Step, LastIsOwn;
    ReplaySnocOwn(s, 0);
    ReplaySnocOwn(t, 0);
    RealignedPrefix(s, t);
    assert OwnAt(t, |s.members| - 1) == OwnAt(s, |s.members| - 1).(align := align);
  }

  lemma RealignedPrefix(s: Layout, t: Layout)
    requires |s.members| > 0 && |s.offsets| == |s.bits| == |s.members| && |t.offsets| == |s.members|
    requires s.cfg == t.cfg && s.members == t.members && s.bits == t.bits
    requires s.groups == t.groups && s.packed == t.packed
    requires forall k :: k != |s.members| - 1 ==> ExplicitAt(s, k) == ExplicitAt(t, k)
    ensures Replay(DropLast(t), 0) == Replay(DropLast(s), 0)
  {
    var u, v := DropLast(s), DropLast(t);
    forall k | 0 <= k < |s.members| - 1 ensures OwnAt(u, k) == OwnAt(v, k) {
      assert ExplicitAt(u, k) == ExplicitAt(s, k) && ExplicitAt(v, k) == ExplicitAt(t, k);
    }
    OwnsAlike(u, v, 0, 0);
  }

  lemma {:induction false} OwnsAlike(s: Layout, t: Layout, i: nat, g: nat)
    requires |s.members| == |t.members| == |s.bits| == |t.bits| && s.groups == t.groups
    requires forall k :: 0 <= k < |s.members| ==> OwnAt(s, k) == OwnAt(t, k)
    ensures Decls(s, i, g) == Decls(t, i, g)
    decreases |s.members| - i, |s.groups| - g
  {
    if i < |s.members| {
      if GroupPassed(s, i, g) { OwnsAlike(s, t, i, g + 1); }
      else if GroupStarts(s, i, g) { OwnsAlike(s, t, i + s.groups[g].count, g + 1); }
      else { OwnsAlike(s, t, i + 1, g); }
    }
  }

  /** The replay's last member carries no aligned(N) before its own is applied. */
  lemma LastUnaligned(s: Layout)
    requires WellFormed(s) && |s.members| > 0 && LastIsOwn(s)
    ensures var a := AddOwn(Replay(DropLast(s), 0), OwnAt(s, |s.members| - 1));
            |a.offsets| == |a.members| == |s.members| && |s.members| - 1 !in a.explicitAlign
  {
    var u := DropLast(s);
    DropLastWellFormed(s);
    ReplayRebuilds(u);
    var r0, d := Replay(u, 0), OwnAt(s, |s.members| - 1);
    DeclsFit(u, 0, 0);
    FoldKeys(Empty(u.cfg).(size := 0), Decls(u, 0, 0));
    AddOwnGrows(r0, d);
    AddOwnKeepsAttributes(r0, d);
  }

  lemma DropLastWellFormed(s: Layout)
    requires WellFormed(s) && |s.members| > 0 && LastIsOwn(s)
    ensures WellFormed(DropLast(s))
  {
    var t := DropLast(s);
    forall g | 0 <= g < |t.groups| ensures GroupFits(t, t.groups[g]) {
      assert GroupFits(s, s.groups[g]);
      var f, c := s.groups[g].first, s.groups[g].count;
      assert t.members[f..f + c] == s.members[f..f + c];
      forall k | 0 <= k < c ensures SameShape(t.bits[f + k], s.groups[g].agg.bits[k]) {
        assert SameShape(s.bits[f + k], s.groups[g].agg.bits[k]);
      }
    }
    forall i | 0 <= i < |t.members| ensures SingleIfBits(t, i) { assert SingleIfBits(s, i); }
  }
}
