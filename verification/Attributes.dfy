/** What the attributes ask for is what a record gets, read off the attributes' own arguments. */
module Attributes {
  import opened Alignment
  import opened RecordLayout
  import opened ReplayedLayout
  import opened Agreement
  import opened Placement
  import opened Windows
  import opened DeclaredTypes
  import opened FieldUnits

  // ----- aligned(N) on the tag

  /** The record's alignment becomes N unless it is larger already, and so does the tag's. */
  lemma TagAligns(s: Layout, n: nat)
    ensures var q := Apply(s, OpTag(n));
            && n <= q.maxAlign && s.maxAlign <= q.maxAlign && (q.maxAlign == n || q.maxAlign == s.maxAlign)
            && n <= q.tagAlign && s.tagAlign <= q.tagAlign && (q.tagAlign == n || q.tagAlign == s.tagAlign)
            && q == s.(maxAlign := q.maxAlign, tagAlign := q.tagAlign) && q == ApplyTagAlignment(s, n)
  {}

  lemma OtherKeepsTag(s: Layout, op: Op)
    requires !op.OpTag?
    ensures Apply(s, op).tagAlign == s.tagAlign
    ensures s.tagAlign <= s.maxAlign ==> s.tagAlign <= Apply(s, op).maxAlign
  {
    match op
    case OpPack => PackingRelays(s); hide Replay, WellFormed;
    case OpBits(name, ty, width) => BitsMaxAlign(s, name, ty, width); BitsKeepTag(s, name, ty, width); hide AddBitField;
    case _ => hide Build, AlignUp, FieldAlign, AggAlign, ShiftKeys, ShiftSet;
  }

  lemma BitsKeepTag(s: Layout, name: string, ty: FieldType, width: nat)
    ensures AddBitField(s, name, ty, width).tagAlign == s.tagAlign
  {
    hide AlignUp, FieldAlign, SysVBit, SysVWindow, CursorBit, Capped;
  }

  /** `tag` is the largest N of the aligned(N) that `ops` give the tag, 0 without one. */
  ghost predicate LargestTag(ops: seq<Op>, tag: nat) {
    (forall n: nat :: OpTag(n) in ops ==> n <= tag) && (tag == 0 || OpTag(tag) in ops)
  }

  lemma {:induction false} RunTag(s: Layout, ops: seq<Op>)
    ensures var t := Run(s, ops);
            && s.tagAlign <= t.tagAlign && (s.tagAlign <= s.maxAlign ==> t.tagAlign <= t.maxAlign)
            && (forall n: nat :: OpTag(n) in ops ==> n <= t.tagAlign)
            && (t.tagAlign == s.tagAlign || OpTag(t.tagAlign) in ops)
    decreases |ops|
  {
    if ops != [] {
      var q := Apply(s, ops[0]);
      RunTag(q, ops[1..]);
      if ops[0].OpTag? { TagAligns(s, ops[0].align); } else { OtherKeepsTag(s, ops[0]); }
      assert Run(s, ops) == Run(q, ops[1..]);
      hide Run, Apply, ApplyTagAlignment;
      assert forall op :: op in ops <==> op == ops[0] || op in ops[1..];
    }
  }

  /** The tag's alignment is the largest N of the aligned(N) given to the tag, 0 without one, and the
      record's alignment is at least as large. */
  lemma TagIsLargestAskedFor(cfg: Config, ops: seq<Op>)
    ensures var s := Run(Empty(cfg), ops); LargestTag(ops, s.tagAlign) && s.tagAlign <= s.maxAlign
  {
    RunTag(Empty(cfg), ops);
  }

  /** A completed record is aligned for every aligned(N) of its tag, and its size is a multiple of it. */
  lemma TaggedRecord(b: Body, n: nat)
    requires OpTag(n) in b.ops
    ensures n <= Build(b).maxAlign
    ensures Replayable(Empty(b.cfg), b.ops) && LegalBody(b) && n != 0 ==> Build(b).size % n == 0
  {
    var s := Run(Empty(b.cfg), b.ops);
    TagIsLargestAskedFor(b.cfg, b.ops);
    assert Build(b).maxAlign == s.maxAlign;
    if Replayable(Empty(b.cfg), b.ops) && LegalBody(b) && n != 0 {
      assert LegalOps(b.ops) && LegalOp(OpTag(n));
      RunSound(b.cfg, b.ops);
      AlignUpRounds(if b.cppMinObjectSize && s.size == 0 && |s.members| == 0 then 1 else s.size, s.maxAlign);
      Pow2Divides(n, s.maxAlign);
      DividesTransitive(n, s.maxAlign, Build(b).size);
    }
  }

  // ----- aligned(N) on a member

  /** aligned(N) on the last member counts exactly when N is larger than what was given to it before:
      then the member moves to the first multiple of N, and the record grows by the move and is aligned
      for N. Union members stay where they are. */
  lemma MemberAligns(s: Layout, n: nat)
    requires |s.offsets| == |s.members| > 0 && s.offsets[|s.members| - 1] >= 0
    ensures var q, last := Apply(s, OpAlign(n)), |s.members| - 1;
            var before := if last in s.explicitAlign then s.explicitAlign[last] else 0;
            && (n <= before ==> q == s)
            && (n > before ==>
                  && q.explicitAlign == s.explicitAlign[last := n] && q.maxAlign == Max(s.maxAlign, n)
                  && |q.offsets| == |s.offsets| && q.offsets[..last] == s.offsets[..last]
                  && q.size - s.size == q.offsets[last] - s.offsets[last]
                  && if s.cfg.isUnion then q.offsets[last] == s.offsets[last]
                     else FirstAligned(s.offsets[last], n, q.offsets[last]))
  {
    if n != 0 { AlignUpIsFirst(s.offsets[|s.members| - 1], n); }
    hide AlignUp, FirstAligned;
  }

  // ----- packed on a member

  lemma {:induction false} FoldMaxAlign(r: Layout, ds: seq<Decl>)
    ensures Fold(r, ds).maxAlign >= r.maxAlign
    decreases |ds|
  {
    hide Step;
    if ds != [] {
      StepMaxAlign(r, ds[0]);
      FoldMaxAlign(Step(r, ds[0]), ds[1..]);
    }
  }

  lemma ConsistentMaxAlign(s: Layout)
    requires Consistent(s)
    ensures s.maxAlign >= 1
  {
    FoldMaxAlign(Empty(s.cfg).(size := 0), Decls(s, 0, 0));
    hide Fold, Decls, WellFormed;
  }

  /** The record as it would be under a pack of 1. */
  function PackedOne(s: Layout): Layout {
    s.(cfg := s.cfg.(pack := 1))
  }

  /** `packed` on the member just added gives what adding it under a pack of 1 gives, the record's own
      pack restored and the member noted as packed. */
  lemma PackedIsPackOfOne(s: Layout, m: Member, width: nat)
    requires Consistent(s)
    ensures Apply(Apply(s, OpMember(m)), OpPack)
         == AddMember(PackedOne(s), m).(cfg := s.cfg, packed := s.packed + {|s.members|})
    ensures Apply(Apply(s, OpBits(m.name, m.ty, width)), OpPack)
         == AddBitField(PackedOne(s), m.name, m.ty, width).(cfg := s.cfg, packed := s.packed + {|s.members|})
  {
    var plain, bits := Own(m, false, 0, false, 0), Own(Member(m.name, m.ty, 1, false), true, width, false, 0);
    PackLastIsEarlyPacking(s, plain);
    PackLastIsEarlyPacking(s, bits);
    assert Lists(s);
    UnpackedIsAdded(s, plain);
    UnpackedIsAdded(s, bits);
    ThenPacked(s, OpMember(m));
    ThenPacked(s, OpBits(m.name, m.ty, width));
    hide AddMember, AddBitField, ApplyMemberPacking, Apply, Consistent;
  }

  lemma ThenPacked(s: Layout, op: Op)
    requires op.OpMember? || op.OpBits?
    ensures Apply(Apply(s, op), OpPack)
         == ApplyMemberPacking(if op.OpMember? then AddMember(s, op.m) else AddBitField(s, op.name, op.ty, op.width))
  {
    hide AddMember, AddBitField, ApplyMemberPacking;
  }

  lemma UnpackedIsAdded(s: Layout, d: Decl)
    requires d.Own? && !d.packed && Lists(s)
    ensures AddOwn(s, d) == if d.isBits then AddBitField(s, d.m.name, d.m.ty, d.width) else AddMember(s, d.m)
  {
    AddGrows(s, d);
    hide AddMember, AddBitField;
  }

  /** A packed member takes the very next byte, 0 in a union, and raises no alignment. */
  lemma PackedMemberTakesNextByte(s: Layout, m: Member)
    requires Consistent(s)
    ensures var q, n := Apply(Apply(s, OpMember(m)), OpPack), |s.members|;
            && |s.offsets| == n && |q.offsets| == n + 1 && q.offsets[..n] == s.offsets
            && q.offsets[n] == (if s.cfg.isUnion then 0 else s.size)
            && q.maxAlign == s.maxAlign && q.cfg == s.cfg && q.packed == s.packed + {n}
            && (m.ty.size > 0 && !m.runtimeSized && !s.cfg.isUnion ==> q.size == s.size + m.ty.size * m.count)
  {
    PackedIsPackOfOne(s, m, 0);
    ConsistentMaxAlign(s);
    AlignUpFixed(s.size, 1);
    assert Lists(s);
    hide Apply, Consistent, AlignUp;
  }

  /** A packed bit-field raises no alignment. Under System V it takes the very next bit, in forward
      order; under the Microsoft rules it opens a unit, where it does, on the very next byte. */
  lemma PackedFieldTakesNextBit(s: Layout, name: string, ty: FieldType, width: nat)
    requires Consistent(s) && 0 < width <= 8 * BitStorage(ty)
    ensures var q, n := Apply(Apply(s, OpBits(name, ty, width)), OpPack), |s.bits|;
            && |q.bits| == n + 1 && q.maxAlign == s.maxAlign
            && (!s.cfg.microsoft && !s.cfg.reverse ==> StartBit(q.bits[n]) == CursorBit(s))
            && (s.cfg.microsoft && !s.cfg.isUnion && !SharesUnit(s, BitStorage(ty), width) ==>
                  q.bits[n].storageOffset == s.size)
  {
    hide Apply, AddBitField, Consistent, StartBit, CursorBit, SharesUnit;
    PackedIsPackOfOne(s, Member(name, ty, 1, false), width);
    ConsistentMaxAlign(s);
    FieldUnderPackOne(PackedOne(s), name, ty, width);
    SameCursor(s, BitStorage(ty), width);
  }

  lemma SameCursor(s: Layout, storage: nat, width: nat)
    ensures CursorBit(PackedOne(s)) == CursorBit(s)
    ensures SharesUnit(PackedOne(s), storage, width) == SharesUnit(s, storage, width)
  {}

  lemma FieldUnderPackOne(p: Layout, name: string, ty: FieldType, width: nat)
    requires p.cfg.pack == 1 && p.maxAlign >= 1 && 0 < width
    ensures var q, n := AddBitField(p, name, ty, width), |p.bits|;
            && |q.bits| == n + 1 && q.maxAlign == p.maxAlign
            && (!p.cfg.microsoft && !p.cfg.reverse ==> StartBit(q.bits[n]) == CursorBit(p))
            && (p.cfg.microsoft && !p.cfg.isUnion && !SharesUnit(p, BitStorage(ty), width) ==>
                  q.bits[n].storageOffset == p.size)
  {
    AlignUpFixed(p.size, 1);
    var e := if p.cfg.isUnion then EndRun(p) else p;
    assert CursorBit(e) == CursorBit(p);
    hide AlignUp, CursorBit, SysVWindow;
  }
}
