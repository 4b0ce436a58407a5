/** What a declared type decides about its member, read off the type itself: how it is aligned and
    how many bytes it takes. */
module DeclaredTypes {
  import opened Alignment
  import opened RecordLayout
  import opened ReplayedLayout
  import opened Agreement
  import opened Placement
  import opened Windows

  // ----- alignment

  /** `a` is the smaller of an alignment, 0 read as 1, and a packing, 0 being none. */
  predicate SmallerOf(align: nat, pack: nat, a: nat) {
    && a != 0 && (a == pack || if align == 0 then a == 1 else a == align)
    && (pack != 0 ==> a <= pack) && (align == 0 ==> a <= 1) && (align != 0 ==> a <= align)
  }

  lemma FieldAlignIsSmaller(cfg: Config, ty: FieldType)
    ensures SmallerOf(ty.align, cfg.pack, FieldAlign(cfg, ty))
    ensures SmallerOf(ty.align, cfg.pragmaPack, Capped(NaturalAlign(ty), cfg.pragmaPack))
  {}

  /** A plain member starts on the first byte that suits the smaller of its type's alignment and the
      packing, and the record is aligned for it. */
  lemma MemberSuitsItsType(r: Layout, m: Member, a: nat)
    requires SmallerOf(m.ty.align, r.cfg.pack, a)
    ensures var q := AddMember(r, m);
            && |q.offsets| == |r.offsets| + 1 && q.maxAlign == Max(r.maxAlign, a)
            && if r.cfg.isUnion then q.offsets[|r.offsets|] == 0
               else FirstAligned(r.size, a, q.offsets[|r.offsets|])
  {
    FieldAlignIsSmaller(r.cfg, m.ty);
    AlignUpIsFirst(r.size, a);
    hide AlignUp, FirstAligned, MemberBytes;
  }

  /** The same for an anonymous block and the alignment of its aggregate. */
  lemma BlockSuitsItsAggregate(r: Layout, agg: Layout, a: nat)
    requires SmallerOf(agg.maxAlign, r.cfg.pack, a)
    ensures var q := AddAnonymous(r, agg);
            var at := if r.cfg.isUnion then 0 else q.size - agg.size;
            && q.maxAlign == Max(r.maxAlign, a)
            && (if r.cfg.isUnion then q.size == Max(r.size, agg.size) else FirstAligned(r.size, a, at))
            && q.groups == r.groups + if agg.members == [] then [] else [Group(|r.members|, |agg.members|, agg, at)]
  {
    FieldAlignIsSmaller(r.cfg, TypeOf(agg));
    AlignUpIsFirst(r.size, a);
    hide AlignUp, FirstAligned, ShiftKeys, ShiftSet, Shifted, MovedAll;
  }

  /** Flattened members keep their own aligned(N) and packing, and those before keep theirs. */
  lemma FlattenedKeepAttributes(r: Layout, agg: Layout, k: nat)
    requires KeysBelow(r, |r.members|)
    ensures var q, n := AddAnonymous(r, agg), |r.members|;
            && (k < n ==> (ExplicitAt(q, k) == ExplicitAt(r, k)) && (k in q.packed <==> k in r.packed))
            && (k < |agg.members| ==> (ExplicitAt(q, n + k) == ExplicitAt(agg, k))
                                      && (n + k in q.packed <==> k in agg.packed))
  {}

  // ----- bytes

  /** An array of a type with a size takes all its elements: each lies in the record, and the next
      member starts behind the last one. */
  lemma ArrayTakesEveryElement(r: Layout, m: Member, next: Member, k: nat)
    requires m.ty.size > 0 && !m.runtimeSized && k < m.count
    ensures var q := AddMember(r, m);
            var at, size := q.offsets[|r.offsets|], m.ty.size;
            && at + k * size + size <= q.size
            && if r.cfg.isUnion then q.size == Max(r.size, size * m.count)
               else q.size == at + size * m.count
                    && at + k * size + size <= AddMember(q, next).offsets[|q.offsets|]
  {
    ElementEnds(m.ty.size, k, m.count);
    hide AlignUp, FieldAlign;
  }

  lemma ElementEnds(size: nat, k: nat, count: nat)
    requires k < count
    ensures 0 <= k * size + size <= size * count
  {
    MultiplesApart(k, count, size);
    assert k * size >= 0;
  }

  /** A type without a size takes no bytes, but an empty class one an element; a member whose size is
      known only at run time takes none. */
  lemma BytesOfOthers(r: Layout, m: Member)
    requires m.ty.size == 0 || m.runtimeSized
    ensures var q := AddMember(r, m);
            var bytes := if m.ty.emptyClass && !m.runtimeSized then m.count else 0;
            q.size == if r.cfg.isUnion then Max(r.size, bytes) else q.offsets[|r.offsets|] + bytes
  {
    hide AlignUp, FieldAlign;
  }

  /** In the completed record, at any depth, element k of a plain member lies inside, and a member
      that follows and is no alternative of a union starts behind it. */
  lemma ElementsNeverOverlap(b: Body, i: nat, k: nat)
    requires Replayable(Empty(b.cfg), b.ops) && LegalBody(b)
    requires var s := Build(b);
             && i < |s.members| && i < |s.bits| && !s.bits[i].isBitField
             && !s.members[i].runtimeSized && s.members[i].ty.size > 0 && k < s.members[i].count
    ensures var s := Build(b);
            && i < |s.offsets| == |s.members| && s.offsets[i] >= 0
            && var end := s.offsets[i] + k * s.members[i].ty.size + s.members[i].ty.size;
               && end <= s.size
               && forall j :: i < j < |s.members| && j < |s.bits| && Separate(s, i, j) ==> 8 * end <= Lo(s, j)
  {
    var s := Build(b);
    MembersNeverOverlap(b);
    assert Inside(s, i);
    ElementEnds(s.members[i].ty.size, k, s.members[i].count);
    assert Hi(s, i) == 8 * (s.offsets[i] + s.members[i].ty.size * s.members[i].count);
    hide Build, Replayable, LegalBody, BlocksApart, Separate, MemberBytes;
  }
}
