/** Where members land: declaration order, no overlap, everything inside the record. */
module Placement {
  import opened Alignment
  import opened RecordLayout
  import opened ReplayedLayout
  import opened Agreement

  // ----- the bits a member occupies

  /** First bit of member i, bit-fields counted forward in their unit; a `:0` is a point. */
  function Lo(s: Layout, i: nat): int
    requires i < |s.members| && i < |s.offsets| && i < |s.bits|
  {
    if !s.bits[i].isBitField then 8 * s.offsets[i]
    else if s.bits[i].bitWidth == 0 then 8 * s.bits[i].storageOffset
    else 8 * s.bits[i].storageOffset + Forward(s.bits[i])
  }

  /** The bit just past member i. */
  function Hi(s: Layout, i: nat): int
    requires i < |s.members| && i < |s.offsets| && i < |s.bits|
  {
    Lo(s, i) + if s.bits[i].isBitField then s.bits[i].bitWidth else 8 * MemberBytes(s.members[i])
  }

  /** The first bit no member has taken yet. */
  function Frontier(s: Layout): nat {
    if s.active then 8 * s.unitOffset + s.nextBit else 8 * s.size
  }

  ghost predicate CursorInside(s: Layout) {
    && Frontier(s) <= 8 * s.size
    && (s.active ==> !s.cfg.isUnion)
    && (s.active && s.cfg.microsoft ==> s.unitOffset + s.unitSize <= s.size && s.nextBit <= 8 * s.unitSize)
  }

  /** Member i is one of group g's flattened members. */
  predicate InGroup(s: Layout, g: nat, i: nat)
    requires g < |s.groups|
  {
    s.groups[g].first <= i < s.groups[g].first + s.groups[g].count
  }

  ghost predicate SameUnit(s: Layout, i: nat, j: nat) {
    exists g :: 0 <= g < |s.groups| && InGroup(s, g, i) && InGroup(s, g, j)
  }

  /** A flattened member sits in its group's block as it sat in the aggregate. */
  ghost predicate Embeds(s: Layout, g: Group) {
    && Lists(s) && Lists(g.agg) && g.first + g.count <= |s.members| && g.count == |g.agg.members|
    && 0 <= g.offset && g.offset + g.agg.size <= s.size
    && forall k :: 0 <= k < g.count ==> EmbedsMember(s, g, k)
  }

  ghost predicate EmbedsMember(s: Layout, g: Group, k: nat)
    requires Lists(s) && Lists(g.agg) && g.first + g.count <= |s.members| && k < g.count == |g.agg.members|
  {
    && s.members[g.first + k] == g.agg.members[k]
    && s.offsets[g.first + k] == g.offset + g.agg.offsets[k]
    && s.bits[g.first + k] == Moved(g.agg.bits[k], g.offset)
  }

  ghost predicate Inside(s: Layout, i: nat)
    requires Lists(s) && i < |s.members|
  {
    0 <= Lo(s, i) <= Hi(s, i) <= 8 * s.size
  }

  /** Declaration order and separation of members of different units. */
  ghost predicate Ordered(s: Layout)
    requires Lists(s)
  {
    forall i, j :: 0 <= i < j < |s.members| && !SameUnit(s, i, j) ==> Hi(s, i) <= Lo(s, j)
  }

  /** The bit just past an anonymous group's block. */
  function BlockEnd(g: Group): int {
    8 * (g.offset + g.agg.size)
  }

  /** A member not flattened from the group lies before or behind its whole block, padding included. */
  ghost predicate BlockApart(s: Layout, g: Group)
    requires Lists(s)
  {
    && (forall i :: 0 <= i < g.first && i < |s.members| ==> Hi(s, i) <= 8 * g.offset)
    && (forall i :: g.first + g.count <= i < |s.members| ==> BlockEnd(g) <= Lo(s, i))
  }

  /** The blocks keep apart from all other members, and follow one another. */
  ghost predicate BlocksOrdered(s: Layout)
    requires Lists(s)
  {
    && (forall g :: 0 <= g < |s.groups| ==> BlockApart(s, s.groups[g]))
    && (forall g, h :: 0 <= g < h < |s.groups| ==> BlockEnd(s.groups[g]) <= 8 * s.groups[h].offset)
  }

  ghost predicate Sound(s: Layout)
    decreases s
  {
    && Lists(s)
    && (forall i :: 0 <= i < |s.members| ==> Inside(s, i))
    && (forall g :: 0 <= g < |s.groups| ==> Embeds(s, s.groups[g]) && Sound(s.groups[g].agg))
    && (!s.cfg.isUnion ==> Ordered(s) && BlocksOrdered(s))
  }

  /** A record still being laid out. */
  ghost predicate Growing(s: Layout) {
    && Sound(s) && CursorInside(s)
    && (!s.cfg.isUnion ==> AllBehind(s))
  }

  /** Every member and every block ends at or before the first free bit. */
  ghost predicate AllBehind(s: Layout)
    requires Lists(s)
  {
    && (forall i :: 0 <= i < |s.members| ==> Hi(s, i) <= Frontier(s))
    && (forall g :: 0 <= g < |s.groups| ==> BlockEnd(s.groups[g]) <= Frontier(s))
  }

  ghost predicate LegalConfig(cfg: Config) {
    IsPow2OrZero(cfg.pack) && IsPow2OrZero(cfg.pragmaPack)
  }

  /** Alignments and bit-field storage are powers of two; a bit-field is no wider than its type,
      and only an unnamed one has width 0. */
  ghost predicate LegalDecl(d: Decl) {
    match d
    case Anon(agg) => Sound(agg) && |agg.members| > 0 && IsPow2(agg.maxAlign)
    case Own(m, isBits, width, _, _) =>
      && IsPow2OrZero(m.ty.align)
      && (isBits ==> IsPow2(BitStorage(m.ty)) && width <= 8 * BitStorage(m.ty) && (width == 0 ==> m.name == ""))
  }

  // ----- one own member

  lemma OpenFieldPlaces(r: Layout, ty: FieldType, width: nat)
    requires CursorInside(r) && 0 < width <= 8 * BitStorage(ty)
    ensures var q := OpenField(r, ty, width);
            && q.cfg == r.cfg && q.active && q.unitSize == BitStorage(ty)
            && (if r.cfg.isUnion then q.unitOffset == 0 && q.nextBit == 0
                else Frontier(r) <= 8 * q.unitOffset + q.nextBit)
            && (r.cfg.microsoft ==> q.unitOffset + q.unitSize <= q.size && q.nextBit + width <= 8 * q.unitSize)
  {}

  /** `q` is `r` with one own member more, at or after the frontier and inside the record. */
  ghost predicate PlacedAfter(r: Layout, q: Layout) {
    var n := |r.members|;
    && Lists(r) && Lists(q) && |q.members| == n + 1
    && q.cfg.isUnion == r.cfg.isUnion && q.cfg.microsoft == r.cfg.microsoft && q.groups == r.groups
    && q.members[..n] == r.members && q.offsets[..n] == r.offsets && q.bits[..n] == r.bits
    && CursorInside(q) && Inside(q, n) && r.size <= q.size
    && (!q.bits[n].isBitField ==> !q.active)
    && (!r.cfg.isUnion ==> Frontier(r) <= Lo(q, n) && Hi(q, n) <= Frontier(q))
  }

  lemma AddBitsPlaces(r: Layout, name: string, ty: FieldType, width: nat)
    requires CursorInside(r) && Lists(r) && width <= 8 * BitStorage(ty) && (width == 0 ==> name == "")
    ensures PlacedAfter(r, AddBitField(r, name, ty, width))
  {
    if width == 0 {
    } else {
      OpenFieldPlaces(r, ty, width);
      var o := OpenField(r, ty, width);
      hide OpenField;
      var q := AddBitField(r, name, ty, width);
      assert Forward(FieldInfo(o, ty, width)) == o.nextBit;
    }
  }

  lemma AddMemberPlaces(r: Layout, m: Member)
    requires CursorInside(r) && Lists(r)
    ensures PlacedAfter(r, AddMember(r, m))
  {}

  lemma AddOwnPlaces(r: Layout, d: Decl)
    requires CursorInside(r) && Lists(r) && d.Own? && LegalDecl(d)
    ensures PlacedAfter(r, AddOwn(r, d))
  {
    var c := UnderPack(r, d.packed);
    if d.isBits { AddBitsPlaces(c, d.m.name, d.m.ty, d.width); } else { AddMemberPlaces(c, d.m); }
    hide AddBitField, AddMember;
    PlacedUnderAnyPack(r, c, if d.isBits then AddBitField(c, d.m.name, d.m.ty, d.width) else AddMember(c, d.m));
  }

  lemma PlacedUnderAnyPack(r: Layout, c: Layout, a: Layout)
    requires c == r.(cfg := r.cfg.(pack := c.cfg.pack)) && PlacedAfter(c, a)
    ensures PlacedAfter(r, a.(cfg := r.cfg))
  {
    var n, q := |r.members|, a.(cfg := r.cfg);
    assert Lo(q, n) == Lo(a, n) && Frontier(q) == Frontier(a) && Frontier(c) == Frontier(r);
  }

  lemma AlignPlaces(r: Layout, q: Layout, align: nat)
    requires PlacedAfter(r, q)
    ensures PlacedAfter(r, ApplyMemberAlignment(q, align))
  {
    var n, t := |r.members|, ApplyMemberAlignment(q, align);
    assert t.offsets[..n] == r.offsets;
    assert t.offsets[n] >= q.offsets[n];
  }

  lemma StepPlaces(r: Layout, d: Decl)
    requires CursorInside(r) && Lists(r) && d.Own? && LegalDecl(d)
    ensures PlacedAfter(r, Step(r, d))
  {
    AddOwnPlaces(r, d);
    AlignPlaces(r, AddOwn(r, d), d.align);
  }

  lemma SameUnitKept(r: Layout, q: Layout, i: nat, j: nat)
    requires |r.groups| <= |q.groups| && q.groups[..|r.groups|] == r.groups
    ensures SameUnit(r, i, j) ==> SameUnit(q, i, j)
  {
    if SameUnit(r, i, j) {
      var h :| 0 <= h < |r.groups| && InGroup(r, h, i) && InGroup(r, h, j);
      assert q.groups[h] == q.groups[..|r.groups|][h];
      assert InGroup(q, h, i) && InGroup(q, h, j);
    }
  }

  /** The first |r.members| members and the first groups of `q` are those of `r`. */
  ghost predicate Extends(r: Layout, q: Layout) {
    && Lists(r) && Lists(q) && |r.members| <= |q.members| && |r.groups| <= |q.groups| && r.size <= q.size
    && q.groups[..|r.groups|] == r.groups
    && forall i :: 0 <= i < |r.members| ==>
         q.members[i] == r.members[i] && q.offsets[i] == r.offsets[i] && q.bits[i] == r.bits[i]
  }

  lemma BitsKept(r: Layout, q: Layout, i: nat)
    requires Extends(r, q) && i < |r.members|
    ensures Lo(q, i) == Lo(r, i) && Hi(q, i) == Hi(r, i)
  {}

  /** Members added at or after the frontier keep the blocks apart. */
  lemma BlocksKept(r: Layout, q: Layout)
    requires Extends(r, q) && q.groups == r.groups && AllBehind(r) && BlocksOrdered(r)
    requires forall i :: |r.members| <= i < |q.members| ==> Frontier(r) <= Lo(q, i)
    requires forall g :: 0 <= g < |r.groups| ==> r.groups[g].first <= |r.members|
    ensures BlocksOrdered(q)
  {
    forall i | 0 <= i < |r.members| ensures Lo(q, i) == Lo(r, i) && Hi(q, i) == Hi(r, i) { BitsKept(r, q, i); }
    hide Lo, Hi, Extends, Frontier;
    forall g | 0 <= g < |q.groups| ensures BlockApart(q, q.groups[g]) {
      assert BlockApart(r, r.groups[g]);
      assert BlockEnd(r.groups[g]) <= Frontier(r);
    }
  }

  /** A last block at or after the frontier keeps apart from everything before it. */
  lemma BlockAdded(r: Layout, q: Layout, g: Group)
    requires Extends(r, q) && q.groups == r.groups + [g] && AllBehind(r) && BlocksOrdered(r)
    requires g.first == |r.members| && |q.members| == g.first + g.count && Frontier(r) <= 8 * g.offset
    requires forall i :: |r.members| <= i < |q.members| ==> 8 * g.offset <= Lo(q, i)
    requires forall h :: 0 <= h < |r.groups| ==> r.groups[h].first <= |r.members|
    ensures BlocksOrdered(q)
  {
    forall i | 0 <= i < |r.members| ensures Lo(q, i) == Lo(r, i) && Hi(q, i) == Hi(r, i) { BitsKept(r, q, i); }
    hide Lo, Hi, Extends, Frontier;
    forall h | 0 <= h < |q.groups| ensures BlockApart(q, q.groups[h]) {
      if h < |r.groups| {
        assert BlockApart(r, r.groups[h]);
        assert BlockEnd(r.groups[h]) <= Frontier(r);
      }
    }
    forall h, k | 0 <= h < k < |q.groups| ensures BlockEnd(q.groups[h]) <= 8 * q.groups[k].offset {
      if k == |r.groups| { assert BlockEnd(r.groups[h]) <= Frontier(r); }
    }
  }

  lemma PlacedExtends(r: Layout, q: Layout)
    requires PlacedAfter(r, q)
    ensures Extends(r, q)
  {
    var n := |r.members|;
    forall i | 0 <= i < n
      ensures q.members[i] == r.members[i] && q.offsets[i] == r.offsets[i] && q.bits[i] == r.bits[i]
    {
      assert q.members[..n][i] == r.members[i] && q.offsets[..n][i] == r.offsets[i] && q.bits[..n][i] == r.bits[i];
    }
    assert q.groups[..|r.groups|] == r.groups;
  }

  lemma PlacedInside(r: Layout, q: Layout)
    requires Growing(r) && PlacedAfter(r, q) && Extends(r, q)
    ensures forall i :: 0 <= i < |q.members| ==> Inside(q, i)
    ensures forall g :: 0 <= g < |q.groups| ==> Embeds(q, q.groups[g]) && Sound(q.groups[g].agg)
  {
    forall i | 0 <= i < |q.members| ensures Inside(q, i) {
      if i < |r.members| { assert Inside(r, i); BitsKept(r, q, i); }
    }
    forall g | 0 <= g < |q.groups| ensures Embeds(q, q.groups[g]) && Sound(q.groups[g].agg) {
      EmbedsKept(r, q, r.groups[g]);
    }
  }

  lemma PlacedOrdered(r: Layout, q: Layout)
    requires Growing(r) && PlacedAfter(r, q) && Extends(r, q) && !q.cfg.isUnion
    ensures Ordered(q) && BlocksOrdered(q) && AllBehind(q)
  {
    var n := |r.members|;
    assert forall g :: 0 <= g < |r.groups| ==> Embeds(r, r.groups[g]);
    hide Sound, Embeds, CursorInside, Frontier;
    BlocksKept(r, q);
    forall i | 0 <= i < n ensures Lo(q, i) == Lo(r, i) && Hi(q, i) == Hi(r, i) { BitsKept(r, q, i); }
    hide Lo, Hi, Extends;
    forall i, j | 0 <= i < j < |q.members| && !SameUnit(q, i, j) ensures Hi(q, i) <= Lo(q, j) {
      SameUnitKept(r, q, i, j);
      if j < n { assert Hi(r, i) <= Lo(r, j); } else { assert Hi(r, i) <= Frontier(r); }
    }
  }

  lemma PlacedSound(r: Layout, q: Layout)
    requires Growing(r) && PlacedAfter(r, q)
    ensures Growing(q)
  {
    PlacedExtends(r, q);
    PlacedInside(r, q);
    if !q.cfg.isUnion { PlacedOrdered(r, q); }
    hide Inside, Embeds, Ordered, BlocksOrdered, AllBehind, Extends;
  }

  // ----- one anonymous aggregate

  lemma AnonEmbeds(r: Layout, agg: Layout)
    requires Growing(r) && Sound(agg) && |agg.members| > 0
    ensures var q := AddAnonymous(r, agg);
            && Lists(q) && |q.groups| == |r.groups| + 1 && q.groups[..|r.groups|] == r.groups
            && q.groups[|r.groups|].agg == agg && q.groups[|r.groups|].first == |r.members|
            && Embeds(q, q.groups[|r.groups|]) && r.size <= q.size && CursorInside(q) && !q.active
            && (!r.cfg.isUnion ==> Frontier(r) <= 8 * q.groups[|r.groups|].offset)
  {
    assert Lists(agg) && Lists(r) && CursorInside(r);
    hide Sound, Growing, AlignUp, AggAlign, ShiftKeys, ShiftSet;
    var q := AddAnonymous(r, agg);
    var g := q.groups[|r.groups|];
    forall k | 0 <= k < g.count ensures EmbedsMember(q, g, k) {}
  }

  lemma EmbeddedBits(s: Layout, g: Group, k: nat)
    requires Embeds(s, g) && k < g.count && Inside(g.agg, k)
    ensures Lo(s, g.first + k) == 8 * g.offset + Lo(g.agg, k)
    ensures Hi(s, g.first + k) == 8 * g.offset + Hi(g.agg, k)
    ensures Inside(s, g.first + k)
  {
    assert EmbedsMember(s, g, k);
  }

  lemma EmbedsKept(r: Layout, q: Layout, g: Group)
    requires Extends(r, q) && Embeds(r, g)
    ensures Embeds(q, g)
  {
    forall k | 0 <= k < g.count ensures EmbedsMember(q, g, k) { assert EmbedsMember(r, g, k); }
  }

  /** A record extended by one group, embedded at or after the frontier. */
  ghost predicate GroupAdded(r: Layout, q: Layout, g: Group) {
    && Growing(r) && Extends(r, q) && q.groups == r.groups + [g]
    && g.first == |r.members| && |q.members| == g.first + g.count && Embeds(q, g) && Sound(g.agg)
    && CursorInside(q) && !q.active && q.cfg.isUnion == r.cfg.isUnion
    && (!r.cfg.isUnion ==> Frontier(r) <= 8 * g.offset)
  }

  lemma GroupInside(r: Layout, q: Layout, g: Group)
    requires GroupAdded(r, q, g)
    ensures forall i :: 0 <= i < |q.members| ==> Inside(q, i) && (i >= |r.members| ==> 8 * g.offset <= Lo(q, i))
    ensures forall h :: 0 <= h < |q.groups| ==> Embeds(q, q.groups[h]) && Sound(q.groups[h].agg)
  {
    var n := |r.members|;
    forall i | 0 <= i < |q.members| ensures Inside(q, i) && (i >= n ==> 8 * g.offset <= Lo(q, i)) {
      if i < n { assert Inside(r, i); } else { assert Inside(g.agg, i - n); EmbeddedBits(q, g, i - n); }
    }
    forall h | 0 <= h < |q.groups| ensures Embeds(q, q.groups[h]) && Sound(q.groups[h].agg) {
      if h < |r.groups| { assert q.groups[h] == r.groups[h]; EmbedsKept(r, q, r.groups[h]); }
    }
  }

  lemma GroupOrdered(r: Layout, q: Layout, g: Group)
    requires GroupAdded(r, q, g) && !q.cfg.isUnion
    requires forall i :: |r.members| <= i < |q.members| ==> 8 * g.offset <= Lo(q, i)
    ensures Ordered(q) && BlocksOrdered(q)
  {
    var n := |r.members|;
    assert forall h :: 0 <= h < |r.groups| ==> Embeds(r, r.groups[h]);
    hide Sound, Embeds, CursorInside, Frontier;
    BlockAdded(r, q, g);
    forall i | 0 <= i < n ensures Lo(q, i) == Lo(r, i) && Hi(q, i) == Hi(r, i) { BitsKept(r, q, i); }
    hide Lo, Hi;
    forall i, j | 0 <= i < j < |q.members| ensures SameUnit(q, i, j) || Hi(q, i) <= Lo(q, j) {
      if i >= n {
        ShareLastGroup(q, i, j);
      } else if j < n {
        SameUnitKept(r, q, i, j);
        assert SameUnit(r, i, j) || Hi(r, i) <= Lo(r, j);
      } else {
        assert Hi(r, i) <= Frontier(r);
      }
    }
  }

  lemma ShareLastGroup(q: Layout, i: nat, j: nat)
    requires q.groups != [] && InGroup(q, |q.groups| - 1, i) && InGroup(q, |q.groups| - 1, j)
    ensures SameUnit(q, i, j)
  {}

  /** A record without an open bit-field run has everything behind its size. */
  lemma InsideIsBehind(q: Layout)
    requires Lists(q) && !q.active
    requires forall i :: 0 <= i < |q.members| ==> Inside(q, i)
    requires forall h :: 0 <= h < |q.groups| ==> Embeds(q, q.groups[h])
    ensures AllBehind(q)
  {
    forall i | 0 <= i < |q.members| ensures Hi(q, i) <= Frontier(q) { assert Inside(q, i); }
    forall h | 0 <= h < |q.groups| ensures BlockEnd(q.groups[h]) <= Frontier(q) { assert Embeds(q, q.groups[h]); }
  }

  lemma GroupSound(r: Layout, q: Layout, g: Group)
    requires GroupAdded(r, q, g)
    ensures Growing(q)
  {
    GroupInside(r, q, g);
    InsideIsBehind(q);
    if !q.cfg.isUnion { GroupOrdered(r, q, g); }
    hide Inside, Embeds, Ordered, BlocksOrdered, AllBehind;
  }

  lemma AnonSound(r: Layout, agg: Layout)
    requires Growing(r) && Sound(agg) && |agg.members| > 0
    ensures Growing(AddAnonymous(r, agg))
  {
    AnonEmbeds(r, agg);
    var q := AddAnonymous(r, agg);
    assert Extends(r, q);
    GroupSound(r, q, q.groups[|r.groups|]);
  }

  // ----- whole records

  lemma {:induction false} FoldSound(r: Layout, ds: seq<Decl>)
    requires Growing(r) && forall d :: d in ds ==> LegalDecl(d)
    ensures Growing(Fold(r, ds))
    decreases |ds|
  {
    if ds != [] {
      var d := ds[0];
      assert LegalDecl(d);
      if d.Anon? { AnonSound(r, d.agg); } else { StepPlaces(r, d); PlacedSound(r, Step(r, d)); }
      FoldSound(Step(r, d), ds[1..]);
    }
  }

  /** Every declaration, of the record and of the anonymous aggregates below it, is legal. */
  ghost predicate LegalOps(ops: seq<Op>)
    decreases ops
  {
    forall op :: op in ops ==> LegalOp(op)
  }

  ghost predicate LegalOp(op: Op)
    decreases op
  {
    match op
    case OpMember(m) => LegalDecl(Own(m, false, 0, false, 0))
    case OpBits(name, ty, width) => LegalDecl(Own(Member(name, ty, 1, false), true, width, false, 0))
    case OpAnon(inner) => LegalBody(inner)
    case OpAlign(align) => IsPow2OrZero(align)
    case OpTag(align) => IsPow2OrZero(align)
    case OpPack => true
  }

  ghost predicate LegalBody(b: Body)
    decreases b
  {
    LegalConfig(b.cfg) && LegalOps(b.ops)
  }

  ghost predicate LegalRecord(s: Layout) {
    && Lists(s)
    && (forall i :: 0 <= i < |s.members| ==> LegalDecl(OwnAt(s, i)))
    && (forall g :: 0 <= g < |s.groups| ==> LegalDecl(Anon(s.groups[g].agg)))
  }

  lemma {:induction false} DeclsLegal(s: Layout, i: nat, g: nat)
    requires LegalRecord(s)
    ensures forall d :: d in Decls(s, i, g) ==> LegalDecl(d)
    decreases |s.members| - i, |s.groups| - g
  {
    if i >= |s.members| {
    } else if GroupPassed(s, i, g) {
      DeclsLegal(s, i, g + 1);
    } else if GroupStarts(s, i, g) {
      DeclsLegal(s, i + s.groups[g].count, g + 1);
    } else {
      assert LegalDecl(OwnAt(s, i));
      DeclsLegal(s, i + 1, g);
    }
  }

  lemma LegalGrown(s: Layout, d: Decl, t: Layout)
    requires LegalRecord(s) && LegalDecl(d) && d.Own? && GrewBy(s, d, t)
    ensures LegalRecord(t)
  {
    var n := |s.members|;
    forall i | 0 <= i < |t.members| ensures LegalDecl(OwnAt(t, i)) {
      if i < n {
        assert LegalDecl(OwnAt(s, i));
        assert t.members[..n][i] == s.members[i] && t.bits[..n][i] == s.bits[i];
      }
    }
  }

  lemma LegalAlike(d: Decl, e: Decl)
    requires d.Own? && e.Own? && d.m == e.m && d.isBits == e.isBits && d.width == e.width && LegalDecl(d)
    ensures LegalDecl(e)
  {}

  lemma LegalAnon(s: Layout, agg: Layout)
    requires LegalRecord(s) && LegalRecord(agg) && LegalDecl(Anon(agg))
    ensures LegalRecord(AddAnonymous(s, agg))
  {
    var t, n := AddAnonymous(s, agg), |s.members|;
    hide AlignUp, AggAlign, ShiftKeys, ShiftSet, Sound;
    forall i | 0 <= i < |t.members| ensures LegalDecl(OwnAt(t, i)) {
      if i < n {
        LegalAlike(OwnAt(s, i), OwnAt(t, i));
      } else {
        LegalAlike(OwnAt(agg, i - n), OwnAt(t, i));
      }
    }
    hide LegalDecl;
    forall g | 0 <= g < |t.groups| ensures LegalDecl(Anon(t.groups[g].agg)) {
      if g < |s.groups| { assert LegalDecl(Anon(s.groups[g].agg)); }
    }
  }

  lemma LegalSame(s: Layout, t: Layout)
    requires LegalRecord(s) && SameDecls(s, t) && Lists(t)
    ensures LegalRecord(t)
  {
    forall i | 0 <= i < |t.members| ensures LegalDecl(OwnAt(t, i)) {
      assert LegalDecl(OwnAt(s, i)) && SameShape(s.bits[i], t.bits[i]);
    }
    forall g | 0 <= g < |t.groups| ensures LegalDecl(Anon(t.groups[g].agg)) {
      assert LegalDecl(Anon(s.groups[g].agg)) && SameGroup(s.groups[g], t.groups[g]);
    }
  }

  lemma LegalKept(s: Layout, t: Layout)
    requires LegalRecord(s) && s.members == t.members && s.bits == t.bits && s.groups == t.groups && Lists(t)
    ensures LegalRecord(t)
  {
    forall i | 0 <= i < |t.members| ensures LegalDecl(OwnAt(t, i)) { assert LegalDecl(OwnAt(s, i)); }
  }

  lemma PackLegal(s: Layout)
    requires Consistent(s) && LegalRecord(s)
    ensures LegalRecord(ApplyMemberPacking(s))
  {
    PackingRelays(s);
    if s.members != [] && |s.members| - 1 !in s.packed {
      var u := LastPacked(s);
      LastPackedRelayable(s);
      RelayoutKeeps(u);
      assert Lists(s) && Lists(Relayout(u));
      hide Consistent, Relayout, ApplyMemberPacking, WellFormed, LegalRecord;
      LegalKept(s, u);
      SameDeclsBack(u, Relayout(u));
      LegalSame(u, Relayout(u));
    }
  }

  lemma ApplyLegal(s: Layout, op: Op)
    requires Consistent(s) && LegalRecord(s) && ReplayableOp(s, op) && LegalOp(op)
    ensures LegalRecord(Apply(s, op))
    decreases op, 0
  {
    hide AddMember, AddBitField, ApplyMemberPacking, ApplyMemberAlignment, AddAnonymous;
    match op
    case OpMember(m) => var d := Own(m, false, 0, false, 0); AddGrows(s, d); LegalGrown(s, d, AddMember(s, m));
    case OpBits(name, ty, width) =>
      var d := Own(Member(name, ty, 1, false), true, width, false, 0);
      AddGrows(s, d);
      LegalGrown(s, d, AddBitField(s, name, ty, width));
    case OpAnon(inner) => BuildSound(inner); LegalAnon(s, Build(inner));
    case OpAlign(align) => AlignKeepsShape(s, align); LegalKept(s, ApplyMemberAlignment(s, align));
    case OpPack => PackLegal(s);
    case OpTag(align) => LegalKept(s, ApplyTagAlignment(s, align));
  }

  lemma SameDeclsBack(s: Layout, t: Layout)
    requires SameDecls(t, s)
    ensures SameDecls(s, t)
  {
    forall i | 0 <= i < |s.members| ensures SameShape(s.bits[i], t.bits[i]) { assert SameShape(t.bits[i], s.bits[i]); }
    forall g | 0 <= g < |s.groups| ensures SameGroup(s.groups[g], t.groups[g]) {
      assert SameGroup(t.groups[g], s.groups[g]);
    }
  }

  lemma {:induction false} RunLegal(s: Layout, ops: seq<Op>)
    requires Consistent(s) && LegalRecord(s) && Replayable(s, ops) && LegalOps(ops)
    ensures LegalRecord(Run(s, ops))
    decreases ops, 1
  {
    if ops != [] {
      assert LegalOp(ops[0]);
      ApplyLegal(s, ops[0]);
      ApplyConsistent(s, ops[0]);
      RunLegal(Apply(s, ops[0]), ops[1..]);
    }
  }

  /** `t` places everything where `s` does, in a record at least as large. */
  ghost predicate SamePlaces(s: Layout, t: Layout) {
    && t.members == s.members && t.offsets == s.offsets && t.bits == s.bits && t.groups == s.groups
    && t.cfg == s.cfg && s.size <= t.size
  }

  lemma SamePlacesSound(s: Layout, t: Layout)
    requires Sound(s) && SamePlaces(s, t)
    ensures Sound(t)
  {
    assert Extends(s, t);
    forall i | 0 <= i < |t.members| ensures Inside(t, i) { assert Inside(s, i); BitsKept(s, t, i); }
    forall g | 0 <= g < |t.groups| ensures Embeds(t, t.groups[g]) && Sound(t.groups[g].agg) {
      EmbedsKept(s, t, s.groups[g]);
    }
    if !t.cfg.isUnion { SamePlacesOrdered(s, t); }
    hide Inside, Embeds, Ordered, BlocksOrdered;
  }

  lemma SamePlacesOrdered(s: Layout, t: Layout)
    requires Lists(s) && SamePlaces(s, t) && Extends(s, t) && Ordered(s) && BlocksOrdered(s)
    ensures Ordered(t) && BlocksOrdered(t)
  {
    forall i | 0 <= i < |s.members| ensures Lo(t, i) == Lo(s, i) && Hi(t, i) == Hi(s, i) { BitsKept(s, t, i); }
    hide Lo, Hi, Extends;
    forall i, j | 0 <= i < j < |t.members| && !SameUnit(t, i, j) ensures Hi(t, i) <= Lo(t, j) {
      SameUnitKept(s, t, i, j);
      assert Hi(s, i) <= Lo(s, j);
    }
    forall g | 0 <= g < |t.groups| ensures BlockApart(t, t.groups[g]) { assert BlockApart(s, s.groups[g]); }
  }

  lemma TaggedGrowing(r: Layout, s: Layout)
    requires Growing(r) && Agrees(r, s)
    ensures Growing(s)
  {
    assert Lists(r) && CursorInside(s) && Frontier(s) == Frontier(r);
    SamePlacesSound(r, s);
    if !s.cfg.isUnion {
      assert Extends(r, s);
      hide Sound, Frontier;
      forall i | 0 <= i < |s.members| ensures Hi(s, i) <= Frontier(s) { BitsKept(r, s, i); }
    }
  }

  // ----- the record's alignment is a power of two

  lemma StepMaxAlign(r: Layout, d: Decl)
    ensures Step(r, d).maxAlign >= r.maxAlign
    ensures LegalDecl(d) && LegalConfig(r.cfg) && IsPow2(r.maxAlign) && (d.Own? ==> IsPow2OrZero(d.align))
            ==> IsPow2(Step(r, d).maxAlign)
  {
    if d.Own? {
      var c := UnderPack(r, d.packed);
      AddMaxAlign(c, d);
    }
  }

  lemma AddMaxAlign(r: Layout, d: Decl)
    requires d.Own?
    ensures var q := if d.isBits then AddBitField(r, d.m.name, d.m.ty, d.width) else AddMember(r, d.m);
            && q.maxAlign >= r.maxAlign
            && (LegalDecl(d) && LegalConfig(r.cfg) && IsPow2(r.maxAlign) ==> IsPow2(q.maxAlign))
  {
    if d.isBits { BitsMaxAlign(r, d.m.name, d.m.ty, d.width); }
    if LegalDecl(d) && LegalConfig(r.cfg) {
      CappedPow2(NaturalAlign(d.m.ty), r.cfg.pack);
      CappedPow2(NaturalAlign(d.m.ty), r.cfg.pragmaPack);
    }
    hide AddBitField, AlignUp, Capped, NaturalAlign;
  }

  lemma CappedPow2(align: nat, cap: nat)
    requires IsPow2(align) && IsPow2OrZero(cap)
    ensures IsPow2(Capped(align, cap))
  {}

  lemma BitsMaxAlign(r: Layout, name: string, ty: FieldType, width: nat)
    ensures AddBitField(r, name, ty, width).maxAlign in
      {r.maxAlign, Max(r.maxAlign, FieldAlign(r.cfg, ty)), Max(r.maxAlign, Capped(NaturalAlign(ty), r.cfg.pragmaPack))}
  {
    hide AlignUp, Max, FieldAlign, Capped, NaturalAlign, SysVBit, SysVWindow, BitStorage, CursorBit;
  }

  lemma {:induction false} FoldPow2(r: Layout, ds: seq<Decl>)
    requires LegalConfig(r.cfg) && IsPow2(r.maxAlign)
    requires forall d :: d in ds ==> LegalDecl(d) && (d.Own? ==> IsPow2OrZero(d.align))
    ensures IsPow2(Fold(r, ds).maxAlign)
    decreases |ds|
  {
    if ds != [] {
      assert LegalDecl(ds[0]);
      StepMaxAlign(r, ds[0]);
      StepKeepsConfig(r, ds[0]);
      FoldPow2(Step(r, ds[0]), ds[1..]);
    }
  }

  lemma {:induction false} DeclsAlign(s: Layout, i: nat, g: nat)
    requires ExplicitPow2(s)
    ensures forall d :: d in Decls(s, i, g) && d.Own? ==> IsPow2OrZero(d.align)
    decreases |s.members| - i, |s.groups| - g
  {
    if i >= |s.members| || i >= |s.bits| {
    } else if GroupPassed(s, i, g) {
      DeclsAlign(s, i, g + 1);
    } else if GroupStarts(s, i, g) {
      DeclsAlign(s, i + s.groups[g].count, g + 1);
    } else {
      DeclsAlign(s, i + 1, g);
    }
  }

  lemma {:induction false} RunTag(s: Layout, ops: seq<Op>)
    requires Consistent(s) && Replayable(s, ops) && LegalOps(ops) && IsPow2OrZero(s.tagAlign)
    ensures IsPow2OrZero(Run(s, ops).tagAlign)
    decreases |ops|
  {
    if ops != [] {
      assert LegalOp(ops[0]);
      ApplyTag(s, ops[0]);
      ApplyConsistent(s, ops[0]);
      RunTag(Apply(s, ops[0]), ops[1..]);
    }
  }

  lemma ApplyTag(s: Layout, op: Op)
    requires LegalOp(op) && IsPow2OrZero(s.tagAlign)
    ensures IsPow2OrZero(Apply(s, op).tagAlign)
  {
    hide AddMember, AddBitField, AddAnonymous, ApplyMemberAlignment, ApplyMemberPacking;
    match op
    case OpMember(m) => AddKeepsAttributes(s, Own(m, false, 0, false, 0));
    case OpBits(name, ty, width) => AddKeepsAttributes(s, Own(Member(name, ty, 1, false), true, width, false, 0));
    case OpAnon(inner) => OthersKeepTag(s, Build(inner), 0);
    case OpAlign(align) => OthersKeepTag(s, s, align);
    case OpPack => OthersKeepTag(s, s, 0);
    case OpTag(align) =>
  }

  lemma OthersKeepTag(s: Layout, agg: Layout, align: nat)
    ensures AddAnonymous(s, agg).tagAlign == s.tagAlign
    ensures ApplyMemberAlignment(s, align).tagAlign == s.tagAlign
    ensures ApplyMemberPacking(s).tagAlign == s.tagAlign
  {
    hide AlignUp, Replay;
  }

  /** Every run keeps members in order, apart, and inside the record. */
  lemma RunSound(cfg: Config, ops: seq<Op>)
    requires LegalConfig(cfg) && Replayable(Empty(cfg), ops) && LegalOps(ops)
    ensures var s := Run(Empty(cfg), ops);
            Growing(s) && LegalRecord(s) && IsPow2(s.maxAlign)
    decreases ops, 2
  {
    var e, s := Empty(cfg), Run(Empty(cfg), ops);
    EmptyConsistent(cfg);
    RunConsistent(e, ops);
    RunConfig(e, ops);
    RunLegal(e, ops);
    RunTag(e, ops);
    var r := Empty(s.cfg).(size := 0);
    DeclsLegal(s, 0, 0);
    DeclsAlign(s, 0, 0);
    FoldSound(r, Decls(s, 0, 0));
    FoldPow2(r, Decls(s, 0, 0));
    TaggedGrowing(Replay(s, 0), s);
  }

  lemma FinalizeSound(s: Layout, cppMin: bool)
    requires Growing(s) && LegalRecord(s)
    ensures Sound(Finalize(s, cppMin)) && LegalRecord(Finalize(s, cppMin))
  {
    var t := Finalize(s, cppMin);
    LegalKept(s, t);
    SamePlacesSound(s, t);
  }

  lemma BuildSound(b: Body)
    requires Replayable(Empty(b.cfg), b.ops) && LegalBody(b)
    ensures Sound(Build(b)) && LegalRecord(Build(b)) && IsPow2(Build(b).maxAlign)
    decreases b, 3
  {
    RunSound(b.cfg, b.ops);
    FinalizeSound(Run(Empty(b.cfg), b.ops), b.cppMinObjectSize);
  }

  /** The innermost aggregate that holds both members is not a union. */
  ghost predicate Separate(s: Layout, i: nat, j: nat)
    decreases s
  {
    && (!SameUnit(s, i, j) ==> !s.cfg.isUnion)
    && forall g :: 0 <= g < |s.groups| && InGroup(s, g, i) && InGroup(s, g, j) ==>
         Separate(s.groups[g].agg, i - s.groups[g].first, j - s.groups[g].first)
  }

  lemma {:induction false} SoundSeparates(s: Layout, i: nat, j: nat)
    requires Sound(s) && i < j < |s.members| && Separate(s, i, j)
    ensures Hi(s, i) <= Lo(s, j)
    decreases s
  {
    if SameUnit(s, i, j) {
      var g :| 0 <= g < |s.groups| && InGroup(s, g, i) && InGroup(s, g, j);
      var gr := s.groups[g];
      assert Embeds(s, gr);
      var a, b := i - gr.first, j - gr.first;
      SoundSeparates(gr.agg, a, b);
      assert Inside(gr.agg, a) && Inside(gr.agg, b);
      EmbeddedBits(s, gr, a);
      EmbeddedBits(s, gr, b);
    }
  }

  /** The anonymous blocks of a record, and of the aggregates below it, keep apart from everything
      else in their own record unless that is a union. */
  ghost predicate BlocksApart(s: Layout)
    decreases s
  {
    && Lists(s)
    && (!s.cfg.isUnion ==> BlocksOrdered(s))
    && forall g :: 0 <= g < |s.groups| ==> BlocksApart(s.groups[g].agg)
  }

  lemma {:induction false} SoundBlocks(s: Layout)
    requires Sound(s)
    ensures BlocksApart(s)
    decreases s
  {
    forall g | 0 <= g < |s.groups| ensures BlocksApart(s.groups[g].agg) { SoundBlocks(s.groups[g].agg); }
  }

  /** In every completed record, under either ABI and any packing: every member lies inside it; of
      two members not alternatives of a union the earlier ends before the later starts; and no
      member reaches into an anonymous block it is no part of, nor one block into another. */
  lemma MembersNeverOverlap(b: Body)
    requires Replayable(Empty(b.cfg), b.ops) && LegalBody(b)
    ensures var s := Build(b);
            && Lists(s) && BlocksApart(s)
            && (forall i :: 0 <= i < |s.members| ==> Inside(s, i))
            && (forall i, j :: 0 <= i < j < |s.members| && Separate(s, i, j) ==> Hi(s, i) <= Lo(s, j))
  {
    var s := Build(b);
    BuildSound(b);
    SoundBlocks(s);
    hide Build;
    forall i, j | 0 <= i < j < |s.members| && Separate(s, i, j) ensures Hi(s, i) <= Lo(s, j) {
      SoundSeparates(s, i, j);
    }
  }

  /** A flattened member keeps its place in its aggregate's block, and stays inside the block. */
  lemma FlattenedStaysInBlock(b: Body, g: nat, k: nat)
    requires Replayable(Empty(b.cfg), b.ops) && LegalBody(b)
    requires g < |Build(b).groups| && k < Build(b).groups[g].count
    ensures var s := Build(b);
            var gr := s.groups[g];
            && Lists(s) && Lists(gr.agg) && gr.first + k < |s.members| && k < |gr.agg.members|
            && Lo(s, gr.first + k) == 8 * gr.offset + Lo(gr.agg, k)
            && 8 * gr.offset <= Lo(s, gr.first + k) <= Hi(s, gr.first + k) <= 8 * (gr.offset + gr.agg.size)
            && 0 <= gr.offset && gr.offset + gr.agg.size <= s.size
  {
    BuildSound(b);
    var s := Build(b);
    var gr := s.groups[g];
    assert Embeds(s, gr) && Sound(gr.agg) && Inside(gr.agg, k);
    EmbeddedBits(s, gr, k);
  }
}
