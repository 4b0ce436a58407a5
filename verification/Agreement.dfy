/** The incremental layout and the batch replay compute the same record, over every run. */
module Agreement {
  import opened Alignment
  import opened RecordLayout
  import opened ReplayedLayout

  /** What the replay needs of a run: alignments are powers of two, aligned(N) follows an own
      member, and an anonymous member has members. */
  ghost predicate ReplayableOp(s: Layout, op: Op)
    decreases op, 0
  {
    match op
    case OpAnon(inner) => Replayable(Empty(inner.cfg), inner.ops) && |Build(inner).members| > 0
    case OpAlign(align) => IsPow2OrZero(align) && (|s.members| == 0 || LastIsOwn(s))
    case _ => true
  }

  ghost predicate Replayable(s: Layout, ops: seq<Op>)
    decreases ops, 1
  {
    ops == [] || (ReplayableOp(s, ops[0]) && Replayable(Apply(s, ops[0]), ops[1..]))
  }

  lemma EmptyConsistent(cfg: Config)
    ensures Consistent(Empty(cfg))
  {
    assert Decls(Empty(cfg), 0, 0) == [];
  }

  lemma FinalizeCarried(s: Layout, cppMin: bool)
    requires Consistent(s) && |s.members| > 0
    ensures Carried(Finalize(s, cppMin))
  {
    SameListsWellFormed(s, Finalize(s, cppMin));
  }

  lemma ApplyConsistent(s: Layout, op: Op)
    requires Consistent(s) && ReplayableOp(s, op)
    ensures Consistent(Apply(s, op))
    decreases op, 0
  {
    match op
    case OpMember(m) => AddMemberKeeps(s, m);
    case OpBits(name, ty, width) => AddBitFieldKeeps(s, name, ty, width);
    case OpAnon(inner) => BuildCarried(inner); AddAnonymousKeeps(s, Build(inner));
    case OpAlign(align) => AlignKeeps(s, align);
    case OpPack => PackKeeps(s);
    case OpTag(align) => TagKeeps(s, align);
  }

  lemma {:induction false} RunConsistent(s: Layout, ops: seq<Op>)
    requires Consistent(s) && Replayable(s, ops)
    ensures Consistent(Run(s, ops))
    decreases ops, 1
  {
    if ops != [] {
      ApplyConsistent(s, ops[0]);
      RunConsistent(Apply(s, ops[0]), ops[1..]);
    }
  }

  lemma BuildCarried(b: Body)
    requires Replayable(Empty(b.cfg), b.ops) && |Build(b).members| > 0
    ensures Carried(Build(b))
    decreases b, 2
  {
    EmptyConsistent(b.cfg);
    RunConsistent(Empty(b.cfg), b.ops);
    FinalizeCarried(Run(Empty(b.cfg), b.ops), b.cppMinObjectSize);
  }

  /** After any run of layout operations, relayout() changes nothing at all: offsets, bit
      placement, groups, size, alignment and the whole bit cursor. */
  lemma IncrementalIsBatch(cfg: Config, ops: seq<Op>)
    requires Replayable(Empty(cfg), ops)
    ensures var s := Run(Empty(cfg), ops); Relayout(s) == s
  {
    EmptyConsistent(cfg);
    RunConsistent(Empty(cfg), ops);
    RelayoutOfConsistent(Run(Empty(cfg), ops));
  }

  /** relayout() is idempotent on every well-formed record, consistent or not. */
  lemma RelayoutIdempotent(s: Layout)
    requires WellFormed(s) && KeysBelow(s, |s.members|) && ExplicitPow2(s)
    ensures Relayout(Relayout(s)) == Relayout(s)
  {
    RelayoutKeeps(s);
    RelayoutOfConsistent(Relayout(s));
  }

  function OwnMemberAlignment(s: Layout): nat {
    if s.tagAlign < s.maxAlign then s.maxAlign else Replay(s, 0).maxAlign
  }

  /** The shortcut in own_member_alignment() never changes its answer. */
  lemma OwnMemberAlignmentIsReplayed(cfg: Config, ops: seq<Op>)
    requires Replayable(Empty(cfg), ops)
    ensures var s := Run(Empty(cfg), ops); OwnMemberAlignment(s) == Replay(s, 0).maxAlign
  {
    EmptyConsistent(cfg);
    RunConsistent(Empty(cfg), ops);
  }

  // ----- attributes that arrive late

  /** Two runs of the same operations record the same declarations. */
  ghost predicate Alike(s: Layout, t: Layout) {
    SameDecls(s, t) && s.tagAlign == t.tagAlign
  }

  lemma GrownAlike(s: Layout, t: Layout, d: Decl, s': Layout, t': Layout)
    requires Alike(s, t) && d.Own? && GrewBy(s, d, s') && GrewBy(t, d, t')
    requires KeepsAttributes(s, s') && KeepsAttributes(t, t')
    ensures Alike(s', t')
  {
    var n := |s.members|;
    assert s'.members == s.members + [s'.members[n]] && t'.members == t.members + [t'.members[n]];
    forall i | 0 <= i < n + 1 ensures SameShape(s'.bits[i], t'.bits[i]) {
      if i < n {
        assert s'.bits[..n][i] == s.bits[i] && t'.bits[..n][i] == t.bits[i];
        assert SameShape(s.bits[i], t.bits[i]);
      }
    }
  }

  lemma AddAlike(s: Layout, t: Layout, d: Decl)
    requires Alike(s, t) && d.Own? && |s.offsets| == |s.members| && |t.offsets| == |t.members|
    ensures Alike(AddMember(s, d.m), AddMember(t, d.m))
    ensures Alike(AddBitField(s, d.m.name, d.m.ty, d.width), AddBitField(t, d.m.name, d.m.ty, d.width))
  {
    var m, b := d.(isBits := false), d.(isBits := true);
    AddGrows(s, m); AddGrows(s, b); AddGrows(t, m); AddGrows(t, b);
    AddKeepsAttributes(s, d); AddKeepsAttributes(t, d);
    GrownAlike(s, t, m, AddMember(s, d.m), AddMember(t, d.m));
    GrownAlike(s, t, b, AddBitField(s, d.m.name, d.m.ty, d.width), AddBitField(t, d.m.name, d.m.ty, d.width));
  }

  lemma AnonAlike(s: Layout, t: Layout, agg: Layout)
    requires Alike(s, t) && |agg.bits| == |agg.members|
    ensures Alike(AddAnonymous(s, agg), AddAnonymous(t, agg))
  {
    var s', t', n := AddAnonymous(s, agg), AddAnonymous(t, agg), |s.members|;
    hide ShiftKeys, ShiftSet, AlignUp, AggAlign;
    forall i | 0 <= i < |s'.members| ensures SameShape(s'.bits[i], t'.bits[i]) {
      if i < n { assert SameShape(s.bits[i], t.bits[i]); }
    }
    forall g | 0 <= g < |s'.groups| ensures SameGroup(s'.groups[g], t'.groups[g]) {
      if g < |s.groups| { assert SameGroup(s.groups[g], t.groups[g]); }
    }
  }

  lemma SameDeclsFlows(a: Layout, b: Layout, c: Layout, d: Layout)
    requires SameDecls(a, b) && SameDecls(c, d) && SameDecls(b, d)
    ensures SameDecls(a, c)
  {
    forall i | 0 <= i < |a.members| ensures SameShape(a.bits[i], c.bits[i]) {
      assert SameShape(a.bits[i], b.bits[i]) && SameShape(c.bits[i], d.bits[i]) && SameShape(b.bits[i], d.bits[i]);
    }
    forall g | 0 <= g < |a.groups| ensures SameGroup(a.groups[g], c.groups[g]) {
      assert SameGroup(a.groups[g], b.groups[g]) && SameGroup(c.groups[g], d.groups[g])
        && SameGroup(b.groups[g], d.groups[g]);
    }
  }

  lemma PackAlike(s: Layout, t: Layout)
    requires Alike(s, t) && Consistent(s) && Consistent(t)
    ensures Alike(ApplyMemberPacking(s), ApplyMemberPacking(t))
  {
    assert s.members == t.members && s.packed == t.packed;
    hide Alike, Consistent, Relayout, ApplyMemberPacking;
    PackingRelays(s);
    PackingRelays(t);
    if s.members != [] && |s.members| - 1 !in s.packed {
      LastPackedRelayable(s);
      LastPackedRelayable(t);
      LastPackedAlike(s, t);
      RelaidAlike(LastPacked(s), LastPacked(t));
    }
  }

  lemma LastPackedAlike(s: Layout, t: Layout)
    requires Alike(s, t) && s.members != []
    ensures t.members != [] && Alike(LastPacked(s), LastPacked(t))
  {
    forall i | 0 <= i < |s.members| ensures SameShape(LastPacked(s).bits[i], LastPacked(t).bits[i]) {
      assert SameShape(s.bits[i], t.bits[i]);
    }
    forall g | 0 <= g < |s.groups| ensures SameGroup(LastPacked(s).groups[g], LastPacked(t).groups[g]) {
      assert SameGroup(s.groups[g], t.groups[g]);
    }
  }

  lemma RelaidAlike(u: Layout, v: Layout)
    requires Alike(u, v) && Relayable(u) && Relayable(v)
    ensures Alike(Relayout(u), Relayout(v))
  {
    RelayoutKeeps(u);
    RelayoutKeeps(v);
    hide Relayable, WellFormed, Relayout, SameDecls, Replay, KeysBelow, ExplicitPow2, Consistent;
    SameDeclsFlows(Relayout(u), u, Relayout(v), v);
  }

  lemma AlignAlike(s: Layout, t: Layout, align: nat)
    requires Alike(s, t) && |s.offsets| == |s.members| && |t.offsets| == |t.members|
    ensures Alike(ApplyMemberAlignment(s, align), ApplyMemberAlignment(t, align))
  {
    AlignKeepsShape(s, align);
    AlignKeepsShape(t, align);
  }

  lemma ConsistentLists(s: Layout)
    requires Consistent(s)
    ensures |s.offsets| == |s.members| && |s.bits| == |s.members|
  {}

  lemma ApplyAlike(s: Layout, t: Layout, op: Op)
    requires Alike(s, t) && Consistent(s) && Consistent(t) && ReplayableOp(s, op)
    ensures ReplayableOp(t, op) && Alike(Apply(s, op), Apply(t, op))
  {
    hide AddMember, AddBitField, AddAnonymous, ApplyMemberPacking, ApplyMemberAlignment, Consistent;
    assert |s.offsets| == |s.members| && |t.offsets| == |t.members| by { ConsistentLists(s); ConsistentLists(t); }
    match op
    case OpMember(m) => AddAlike(s, t, Own(m, false, 0, false, 0));
    case OpBits(name, ty, width) => AddAlike(s, t, Own(Member(name, ty, 1, false), true, width, false, 0));
    case OpAnon(inner) =>
      BuildCarried(inner);
      assert |Build(inner).bits| == |Build(inner).members|;
      AnonAlike(s, t, Build(inner));
    case OpAlign(align) =>
      AlignAlike(s, t, align);
      assert forall g :: 0 <= g < |s.groups| ==> SameGroup(s.groups[g], t.groups[g]);
    case OpPack => PackAlike(s, t);
    case OpTag(align) =>
      assert forall g :: 0 <= g < |s.groups| ==> SameGroup(s.groups[g], t.groups[g]);
      assert forall i :: 0 <= i < |s.members| ==> SameShape(s.bits[i], t.bits[i]);
  }

  lemma {:induction false} RunAlike(s: Layout, t: Layout, ops: seq<Op>)
    requires Alike(s, t) && Consistent(s) && Consistent(t) && Replayable(s, ops)
    ensures Replayable(t, ops) && Alike(Run(s, ops), Run(t, ops))
    decreases |ops|
  {
    if ops != [] {
      ApplyAlike(s, t, ops[0]);
      ApplyConsistent(s, ops[0]);
      ApplyConsistent(t, ops[0]);
      RunAlike(Apply(s, ops[0]), Apply(t, ops[0]), ops[1..]);
    }
  }

  lemma RelayoutAlike(s: Layout, t: Layout)
    requires Alike(s, t) && s.cfg == t.cfg
    ensures Relayout(s) == Relayout(t)
  {
    SameDeclsReplay(s, t, 0, 0);
  }

  /** Setting the packing (or any other part of the configuration) after the last member and
      calling relayout() gives the record that had it from the first member on. */
  lemma LatePackingIsEarlyPacking(early: Config, late: Config, ops: seq<Op>)
    requires Replayable(Empty(early), ops)
    ensures Relayout(Run(Empty(early), ops).(cfg := late)) == Run(Empty(late), ops)
  {
    EmptyConsistent(early);
    EmptyConsistent(late);
    RunAlike(Empty(early), Empty(late), ops);
    RunConsistent(Empty(early), ops);
    var s, t := Run(Empty(early), ops), Run(Empty(late), ops);
    IncrementalIsBatch(late, ops);
    RunConsistent(Empty(late), ops);
    ReplayRebuilds(t);
    RunConfig(Empty(late), ops);
    assert forall i :: 0 <= i < |s.members| ==> SameShape(s.bits[i], t.bits[i]);
    assert forall g :: 0 <= g < |s.groups| ==> SameGroup(s.groups[g], t.groups[g]);
    RelayoutAlike(s.(cfg := late), t);
  }

  lemma {:induction false} RunConfig(s: Layout, ops: seq<Op>)
    requires Consistent(s) && Replayable(s, ops)
    ensures Run(s, ops).cfg == s.cfg
    decreases |ops|
  {
    if ops != [] {
      ApplyConfig(s, ops[0]);
      ApplyConsistent(s, ops[0]);
      RunConfig(Apply(s, ops[0]), ops[1..]);
    }
  }

  lemma ApplyConfig(s: Layout, op: Op)
    requires Consistent(s) && ReplayableOp(s, op)
    ensures Apply(s, op).cfg == s.cfg
  {
    match op
    case OpMember(m) => AddGrows(s, Own(m, false, 0, false, 0));
    case OpBits(name, ty, width) => AddGrows(s, Own(Member(name, ty, 1, false), true, width, false, 0));
    case OpAlign(align) => AlignKeepsShape(s, align);
    case _ =>
  }

  /** One declaration added under a pack of 1, the record's own packing restored after it. */
  function AddPacked(s: Layout, d: Decl): Layout
    requires d.Own?
  {
    AddOwn(s, d.(packed := true)).(packed := s.packed + {|s.members|})
  }

  /** A member as it is added, before any attribute of its own. */
  predicate Bare(d: Decl) {
    && d.Own? && d.align == 0 && !d.packed
    && if d.isBits then d.m.count == 1 && !d.m.runtimeSized else d.width == 0
  }

  lemma PackedSetting(s: Layout, d: Decl)
    requires Consistent(s) && Bare(d)
    ensures var a := AddOwn(s, d);
            && KeepsAttributes(s, a) && |s.members| !in s.packed
            && GrewBy(s, d, LastPacked(a)) && Relayable(LastPacked(a)) && LastIsOwn(LastPacked(a))
  {
    AddOwnGrows(s, d);
    AddOwnKeepsAttributes(s, d);
    assert WellFormed(s) && KeysBelow(s, |s.members|) && ExplicitPow2(s);
    hide AddOwn, Consistent, WellFormed;
    var u := LastPacked(AddOwn(s, d));
    assert GrewBy(s, d, u);
    GrownWellFormed(s, d, u);
    assert Lists(u);
  }

  lemma PackedReplay(s: Layout, d: Decl, u: Layout)
    requires Lists(s) && Bare(d) && GrewBy(s, d, u) && Lists(u) && LastIsOwn(u)
    requires u.explicitAlign == s.explicitAlign && u.packed == s.packed + {|s.members|}
    requires |s.members| !in s.explicitAlign
    ensures Replay(u, 0) == AddOwn(Replay(s, 0), d.(packed := true))
  {
    var n := |s.members|;
    var v := DropLast(u);
    assert v.members == s.members && v.bits == s.bits;
    assert OwnAt(u, n) == d.(packed := true);
    forall k | 0 <= k < n ensures OwnAt(s, k) == OwnAt(v, k) {}
    OwnsAlike(s, v, 0, 0);
    hide AddOwn, Decls;
    ReplaySnocOwn(u, 0);
  }

  lemma TaggedOwn(r: Layout, d: Decl, e: map<nat, nat>, p: set<nat>, t: nat)
    requires d.Own?
    ensures AddOwn(Tagged(r, e, p, t), d) == Tagged(AddOwn(r, d), e, p, t)
  {
    hide AddBitField, AddMember;
    var c := UnderPack(r, d.packed);
    TaggedMember(c, d.m, e, p, t);
    TaggedBits(c, d.m.name, d.m.ty, d.width, e, p, t);
  }

  /** `packed` on the member just added: the record that had added it under a pack of 1. */
  lemma PackLastIsEarlyPacking(s: Layout, d: Decl)
    requires Consistent(s) && Bare(d)
    ensures ApplyMemberPacking(AddOwn(s, d)) == AddPacked(s, d)
  {
    var a, p, r := AddOwn(s, d), d.(packed := true), Replay(s, 0);
    PackedSetting(s, d);
    PackingRelays(a);
    RelayoutKeeps(LastPacked(a));
    assert Lists(LastPacked(a));
    PackedReplay(s, d, LastPacked(a));
    TaggedOwn(r, p, s.explicitAlign, s.packed, s.tagAlign);
    assert s == Tagged(r, s.explicitAlign, s.packed, s.tagAlign);
    hide AddOwn, Relayout, ApplyMemberPacking, Replay, Consistent, WellFormed;
  }

  // ----- aligned(N) right after an anonymous aggregate

  ghost predicate LastIsFlattened(s: Layout) {
    |s.groups| > 0 && s.groups[|s.groups| - 1].first + s.groups[|s.groups| - 1].count == |s.members|
  }

  lemma {:induction false} LastGroupStartsBy(s: Layout, g: nat)
    requires GroupsOrdered(s) && g < |s.groups|
    ensures s.groups[g].first <= s.groups[|s.groups| - 1].first
    decreases |s.groups| - g
  {
    if g < |s.groups| - 1 { LastGroupStartsBy(s, g + 1); }
  }

  lemma {:induction false} FlattenedUnread(s: Layout, t: Layout, i: nat, g: nat)
    requires |s.bits| == |s.members| && GroupsOrdered(s) && LastIsFlattened(s)
    requires forall h :: 0 <= h < |s.groups| ==> s.groups[h].count > 0
    requires i == |s.members| || (g < |s.groups| && i <= s.groups[g].first)
    requires s.members == t.members && s.bits == t.bits && s.groups == t.groups && s.packed == t.packed
    requires forall k :: k != |s.members| - 1 ==> ExplicitAt(s, k) == ExplicitAt(t, k)
    ensures Decls(s, i, g) == Decls(t, i, g)
    decreases |s.members| - i
  {
    if i < |s.members| {
      LastGroupStartsBy(s, g);
      if GroupStarts(s, i, g) {
        FlattenedUnread(s, t, i + s.groups[g].count, g + 1);
      } else {
        FlattenedUnread(s, t, i + 1, g);
      }
    }
  }

  /** A replay takes an anonymous aggregate as one unit and forgets an aligned(N) given to its
      last flattened member: the layouts agree exactly when the request had nothing to change. */
  lemma AlignFlattenedAgreesIff(s: Layout, align: nat)
    requires Consistent(s) && LastIsFlattened(s) && IsPow2OrZero(align)
    ensures var t := ApplyMemberAlignment(s, align);
            Relayout(t) == t <==>
              AlignIgnored(s, align) ||
              (align <= s.maxAlign && (s.cfg.isUnion || s.offsets[|s.offsets| - 1] % align == 0))
  {
    var t := ApplyMemberAlignment(s, align);
    SameListsWellFormed(s, t);
    RelayoutOfConsistent(s);
    RelayoutOfConsistent(t);
    if !AlignIgnored(s, align) {
      forall h | 0 <= h < |s.groups| ensures s.groups[h].count > 0 { assert GroupFits(s, s.groups[h]); }
      FlattenedUnread(s, t, 0, 0);
      AlignChangesNothingIff(s, align);
      hide ApplyMemberAlignment, Relayout;
      assert Replay(t, 0) == Replay(s, 0);
    }
  }

  lemma AlignChangesNothingIff(s: Layout, align: nat)
    requires |s.offsets| == |s.members| && !AlignIgnored(s, align)
    ensures var t := ApplyMemberAlignment(s, align);
            && t == s.(offsets := t.offsets, size := t.size, maxAlign := t.maxAlign, explicitAlign := t.explicitAlign)
            && (t.offsets == s.offsets && t.size == s.size && t.maxAlign == s.maxAlign <==>
                align <= s.maxAlign && (s.cfg.isUnion || s.offsets[|s.offsets| - 1] % align == 0))
  {
    var t, last := ApplyMemberAlignment(s, align), |s.offsets| - 1;
    if !s.cfg.isUnion {
      AlignUpRounds(s.offsets[last], align);
      if s.offsets[last] % align == 0 { AlignUpFixed(s.offsets[last], align); }
      assert t.offsets[last] % align == 0;
      hide AlignUp;
      assert s.offsets[last := s.offsets[last]] == s.offsets;
    }
  }

  /** Such a record: after `char a; struct { char b; };`, an aligned(4) moves b from byte 1 to byte 4,
      and laying the record out again moves it back. */
  lemma FlattenedAlignIsForgotten()
    ensures var char8 := Member("a", FieldType(1, 1, false, false, false), 1, false);
            var cfg := Config(false, 0, 0, false, false);
            var s := Run(Empty(cfg), [OpMember(char8), OpAnon(Body(cfg, [OpMember(char8)], false))]);
            var t := ApplyMemberAlignment(s, 4);
            && Consistent(s) && LastIsFlattened(s) && t.offsets == [0, 4] && Relayout(t) != t
  {
    hide *;
    var char8 := Member("a", FieldType(1, 1, false, false, false), 1, false);
    var cfg := Config(false, 0, 0, false, false);
    var one := AddMember(Empty(cfg), char8);
    RunsToBlock(cfg, char8);
    OneChar(cfg, char8);
    EmptyConsistent(cfg);
    AddMemberKeeps(Empty(cfg), char8);
    FinalizeCarried(one, false);
    AddAnonymousKeeps(one, Finalize(one, false));
    CharBlock(one);
    AlignsBlock(AddAnonymous(one, Finalize(one, false)));
  }

  lemma RunsToBlock(cfg: Config, m: Member)
    ensures var one := AddMember(Empty(cfg), m);
            Run(Empty(cfg), [OpMember(m), OpAnon(Body(cfg, [OpMember(m)], false))])
            == AddAnonymous(one, Finalize(one, false))
  {
    hide AddMember, AddAnonymous, Finalize;
    var a, inner := OpMember(m), Body(cfg, [OpMember(m)], false);
    var b := OpAnon(inner);
    var one := AddMember(Empty(cfg), m);
    assert [a][1..] == [] && [a, b][1..] == [b] && [b][1..] == [];
    assert Run(Empty(cfg), [a]) == Run(one, []) == one;
    assert Build(inner) == Finalize(Run(Empty(cfg), inner.ops), false) == Finalize(one, false);
    assert Apply(one, b) == AddAnonymous(one, Build(inner));
    assert Run(Empty(cfg), [a, b]) == Run(one, [b]) == Run(Apply(one, b), []);
  }

  lemma OneChar(cfg: Config, m: Member)
    requires cfg == Config(false, 0, 0, false, false)
    requires m == Member("a", FieldType(1, 1, false, false, false), 1, false)
    ensures var one := AddMember(Empty(cfg), m);
            && one.cfg == cfg && one.members == [m] && one.offsets == [0] && one.bits == [PLAIN] && one.groups == []
            && one.size == 1 && one.maxAlign == 1 && one.explicitAlign == map[]
  {}

  lemma CharBlock(one: Layout)
    requires one.cfg == Config(false, 0, 0, false, false) && |one.members| == |one.bits| == 1 && one.offsets == [0]
    requires one.groups == [] && one.size == 1 && one.maxAlign == 1 && one.explicitAlign == map[]
    ensures var s := AddAnonymous(one, Finalize(one, false));
            && |s.members| == 2 && s.offsets == [0, 1] && s.maxAlign == 1 && s.explicitAlign == map[]
            && !s.cfg.isUnion && LastIsFlattened(s)
  {
    AlignUpFixed(1, 1);
  }

  lemma AlignsBlock(s: Layout)
    requires Consistent(s) && LastIsFlattened(s) && |s.members| == 2 && s.offsets == [0, 1]
    requires s.maxAlign == 1 && s.explicitAlign == map[] && !s.cfg.isUnion
    ensures var t := ApplyMemberAlignment(s, 4); t.offsets == [0, 4] && Relayout(t) != t
  {
    hide Consistent, Relayout, LastIsFlattened;
    assert IsPow2(2) && IsPow2(4);
    AlignUpUnique(1, 4, 4);
    AlignFlattenedAgreesIff(s, 4);
  }
}
