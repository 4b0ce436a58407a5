/** A packed System V record wastes no byte: its size, computed without laying anything out. */
module Density {
  import opened Alignment
  import opened RecordLayout
  import opened ReplayedLayout
  import opened Agreement
  import opened Placement
  import opened Windows
  import opened Units

  /** Plain and anonymous members and nonzero bit-fields, without attributes of their own. */
  predicate DenseOp(op: Op) {
    match op
    case OpMember(_) => true
    case OpBits(_, ty, width) => 0 < width <= 8 * BitStorage(ty)
    case OpAnon(_) => true
    case _ => false
  }

  /** The bytes `ops` need after `open` bits of a bit-field run: every maximal run rounds up to
      whole bytes, every other member takes just its own. */
  function DenseBytes(open: nat, ops: seq<Op>): nat
    decreases |ops|
  {
    if ops == [] then (open + 7) / 8 else
      match ops[0]
      case OpBits(_, _, width) => DenseBytes(open + width, ops[1..])
      case OpMember(m) => (open + 7) / 8 + MemberBytes(m) + DenseBytes(0, ops[1..])
      case OpAnon(inner) => (open + 7) / 8 + Build(inner).size + DenseBytes(0, ops[1..])
      case _ => DenseBytes(open, ops[1..])
  }

  predicate DenseConfig(cfg: Config) {
    !cfg.microsoft && !cfg.isUnion && !cfg.reverse && cfg.pack == 1
  }

  /** `open` bits of a run are taken past byte `whole`. */
  predicate DenseAt(s: Layout, whole: nat, open: nat) {
    && DenseConfig(s.cfg) && s.maxAlign == 1
    && Frontier(s) == 8 * whole + open && s.size == whole + (open + 7) / 8
  }

  /** In a packed record a bit-field starts on the very next bit. */
  lemma DenseBits(s: Layout, name: string, ty: FieldType, width: nat, whole: nat, open: nat)
    requires DenseAt(s, whole, open) && Lists(s) && 0 < width <= 8 * BitStorage(ty)
    ensures var q := AddBitField(s, name, ty, width);
            && DenseAt(q, whole, open + width) && Lists(q) && |q.members| == |s.members| + 1
            && Lo(q, |s.members|) == Frontier(s) && Hi(q, |s.members|) == Frontier(q)
  {
    var o := OpenField(s, ty, width);
    assert o.cfg == s.cfg && o.active && o.size == s.size && 8 * o.unitOffset + o.nextBit == Frontier(s);
    assert o.maxAlign == 1;
    hide OpenField;
    var q := AddBitField(s, name, ty, width);
    assert q.bits[|s.bits|] == FieldInfo(o, ty, width);
  }

  // ----- no bit between one member and the next

  /** A bit-field starts where the member before it ends; another member on the next whole byte. */
  ghost predicate Touches(s: Layout, i: nat)
    requires Lists(s) && i + 1 < |s.members|
  {
    Lo(s, i + 1) == if s.bits[i + 1].isBitField then Hi(s, i) else AlignUp(Hi(s, i), 8)
  }

  /** Consecutive own members touch, and the last one ends where the record goes on. */
  ghost predicate Chained(s: Layout) {
    && Lists(s)
    && (forall i :: 0 <= i < |s.members| - 1 && OwnMember(s, i) && OwnMember(s, i + 1) ==> Touches(s, i))
    && (s.members != [] && OwnMember(s, |s.members| - 1) ==> Hi(s, |s.members| - 1) == Frontier(s))
  }

  /** `q` is `s` and one own member, from the frontier or its next byte to the new frontier. */
  ghost predicate Linked(s: Layout, q: Layout) {
    var n := |s.members|;
    && Lists(s) && Lists(q) && |q.members| == n + 1 && q.groups == s.groups
    && q.members[..n] == s.members && q.offsets[..n] == s.offsets && q.bits[..n] == s.bits
    && Lo(q, n) == (if q.bits[n].isBitField then Frontier(s) else AlignUp(Frontier(s), 8))
    && Hi(q, n) == Frontier(q)
  }

  lemma LinkedChained(s: Layout, q: Layout)
    requires Chained(s) && Linked(s, q)
    ensures Chained(q)
  {
    var n := |s.members|;
    forall i | 0 <= i < n ensures Lo(q, i) == Lo(s, i) && Hi(q, i) == Hi(s, i) && q.bits[i] == s.bits[i] {
      assert q.members[..n][i] == s.members[i] && q.offsets[..n][i] == s.offsets[i] && q.bits[..n][i] == s.bits[i];
    }
    forall i | 0 <= i < n ensures OwnMember(q, i) <==> OwnMember(s, i) { SameOwn(s, q, i); }
    hide Lo, Hi, OwnMember, Frontier, AlignUp;
    forall i | 0 <= i < n && OwnMember(q, i) && OwnMember(q, i + 1) ensures Touches(q, i) {
      if i < n - 1 { assert Touches(s, i); }
    }
  }

  lemma SameOwn(s: Layout, q: Layout, i: nat)
    requires q.groups == s.groups
    ensures OwnMember(q, i) <==> OwnMember(s, i)
  {
    forall g | 0 <= g < |s.groups| ensures InGroup(q, g, i) == InGroup(s, g, i) {}
  }

  lemma BitsLink(s: Layout, name: string, ty: FieldType, width: nat, whole: nat, open: nat)
    requires DenseAt(s, whole, open) && Lists(s) && 0 < width <= 8 * BitStorage(ty)
    ensures Linked(s, AddBitField(s, name, ty, width))
  {
    var d := Own(Member(name, ty, 1, false), true, width, false, 0);
    DenseBits(s, name, ty, width, whole, open);
    AddContinues(s, d);
    AddGrows(s, d);
    hide AddBitField, Lo, Hi, Frontier, AlignUp;
  }

  lemma MemberLinks(s: Layout, m: Member, whole: nat, open: nat)
    requires DenseAt(s, whole, open) && Lists(s)
    ensures Linked(s, AddMember(s, m))
  {
    AlignUpFixed(s.size, 1);
  }

  lemma AnonChained(s: Layout, agg: Layout)
    requires Chained(s) && Lists(agg) && |agg.members| > 0
    requires forall g :: 0 <= g < |s.groups| ==> s.groups[g].first + s.groups[g].count <= |s.members|
    ensures Chained(AddAnonymous(s, agg))
  {
    hide AlignUp, AggAlign, ShiftKeys, ShiftSet;
    var q, n := AddAnonymous(s, agg), |s.members|;
    forall i | 0 <= i < n ensures Lo(q, i) == Lo(s, i) && Hi(q, i) == Hi(s, i) && q.bits[i] == s.bits[i] {}
    forall i | n <= i < |q.members| ensures !OwnMember(q, i) { assert InGroup(q, |s.groups|, i); }
    forall i | 0 <= i < n && OwnMember(q, i) ensures OwnMember(s, i) {
      forall g | 0 <= g < |s.groups| ensures !InGroup(s, g, i) { assert !InGroup(q, g, i); }
    }
    hide Lo, Hi, OwnMember;
    forall i | 0 <= i < |q.members| - 1 && OwnMember(q, i) && OwnMember(q, i + 1) ensures Touches(q, i) {
      assert Touches(s, i);
    }
  }

  lemma DenseWhole(s: Layout, op: Op, whole: nat, open: nat)
    requires DenseAt(s, whole, open) && Lists(s) && (op.OpMember? || op.OpAnon?)
    requires op.OpAnon? ==> Lists(Build(op.inner))
    ensures var bytes := if op.OpMember? then MemberBytes(op.m) else Build(op.inner).size;
            DenseAt(Apply(s, op), whole + (open + 7) / 8 + bytes, 0) && Lists(Apply(s, op))
  {
    AlignUpFixed(s.size, 1);
  }

  ghost predicate Flattens(op: Op) {
    op.OpAnon? ==> Lists(Build(op.inner)) && |Build(op.inner).members| > 0
  }

  lemma ChainStep(s: Layout, op: Op, whole: nat, open: nat)
    requires DenseAt(s, whole, open) && DenseOp(op) && Flattens(op) && Chained(s) && GroupsWithin(s, |s.members|)
    ensures Chained(Apply(s, op)) && GroupsWithin(Apply(s, op), |Apply(s, op).members|)
  {
    var q := Apply(s, op);
    match op
    case OpBits(name, ty, width) => BitsLink(s, name, ty, width, whole, open); LinkedChained(s, q);
    case OpMember(m) => MemberLinks(s, m, whole, open); LinkedChained(s, q);
    case OpAnon(inner) => AnonChained(s, Build(inner)); AnonWithin(s, Build(inner));
    hide AddMember, AddBitField, AddAnonymous, Build, DenseAt, Touches;
  }

  lemma AnonWithin(s: Layout, agg: Layout)
    requires GroupsWithin(s, |s.members|)
    ensures GroupsWithin(AddAnonymous(s, agg), |AddAnonymous(s, agg).members|)
  {
    hide AlignUp, AggAlign, ShiftKeys, ShiftSet, Shifted, MovedAll;
  }

  /** The whole bytes and the open bits of a run after one operation more. */
  function WholeAfter(op: Op, whole: nat, open: nat): nat {
    match op
    case OpMember(m) => whole + (open + 7) / 8 + MemberBytes(m)
    case OpAnon(inner) => whole + (open + 7) / 8 + Build(inner).size
    case _ => whole
  }

  function OpenAfter(op: Op, open: nat): nat {
    if op.OpBits? then open + op.width else 0
  }

  /** The record is dense so far: `open` bits of a run are taken past byte `whole`. */
  ghost predicate Packed(s: Layout, whole: nat, open: nat) {
    DenseAt(s, whole, open) && Chained(s) && GroupsWithin(s, |s.members|)
  }

  lemma DenseStep(s: Layout, op: Op, whole: nat, open: nat)
    requires Packed(s, whole, open) && DenseOp(op) && Flattens(op)
    ensures Packed(Apply(s, op), WholeAfter(op, whole, open), OpenAfter(op, open))
  {
    assert Lists(s);
    hide Chained, GroupsWithin, Build;
    ChainStep(s, op, whole, open);
    if op.OpBits? {
      assert Apply(s, op) == AddBitField(s, op.name, op.ty, op.width);
      DenseBits(s, op.name, op.ty, op.width, whole, open);
    } else {
      DenseWhole(s, op, whole, open);
    }
    hide Apply, DenseAt, AddBitField, MemberBytes;
  }

  lemma {:induction false} DenseRun(s: Layout, ops: seq<Op>, whole: nat, open: nat)
    requires Packed(s, whole, open) && forall op :: op in ops ==> DenseOp(op) && Flattens(op)
    ensures var t := Run(s, ops); t.size == whole + DenseBytes(open, ops) && t.maxAlign == 1 && Chained(t)
    decreases |ops|
  {
    if ops == [] {
      assert DenseAt(s, whole, open);
    } else {
      hide Apply, Packed, Flattens, Build, MemberBytes, Chained;
      var op := ops[0];
      assert DenseOp(op);
      DenseStep(s, op, whole, open);
      DenseRun(Apply(s, op), ops[1..], WholeAfter(op, whole, open), OpenAfter(op, open));
    }
  }

  lemma DenseBuild(cfg: Config, ops: seq<Op>)
    requires DenseConfig(cfg) && forall op :: op in ops ==> DenseOp(op)
    requires LegalOps(ops) && Replayable(Empty(cfg), ops)
    ensures var t := Run(Empty(cfg), ops); t.size == DenseBytes(0, ops) && t.maxAlign == 1 && Chained(t)
  {
    forall op | op in ops ensures Flattens(op) {
      var k :| 0 <= k < |ops| && ops[k] == op;
      assert LegalOp(op);
      if op.OpAnon? {
        RunReplayable(Empty(cfg), ops, k);
        BuildSound(op.inner);
      }
    }
    hide Run, Build, Sound, LegalRecord, LegalOps, LegalBody, Replayable;
    DenseRun(Empty(cfg), ops, 0, 0);
  }

  /** The size of a packed record is exactly the bytes its members need. */
  lemma PackedSizeIsExact(cfg: Config, ops: seq<Op>)
    requires DenseConfig(cfg) && forall op :: op in ops ==> DenseOp(op)
    requires LegalOps(ops) && Replayable(Empty(cfg), ops)
    ensures Build(Body(cfg, ops, false)).size == DenseBytes(0, ops)
  {
    DenseBuild(cfg, ops);
    AlignUpFixed(Run(Empty(cfg), ops).size, 1);
  }

  /** In the completed record a bit-field starts on the very bit where the member before it ends,
      and every other member on the next whole byte. */
  lemma PackedMembersTouch(cfg: Config, ops: seq<Op>, i: nat)
    requires DenseConfig(cfg) && forall op :: op in ops ==> DenseOp(op)
    requires LegalOps(ops) && Replayable(Empty(cfg), ops)
    requires var s := Build(Body(cfg, ops, false)); i + 1 < |s.members| && OwnMember(s, i) && OwnMember(s, i + 1)
    ensures var s := Build(Body(cfg, ops, false));
            && Lists(s)
            && Lo(s, i + 1) == if s.bits[i + 1].isBitField then Hi(s, i) else AlignUp(Hi(s, i), 8)
  {
    var t, s := Run(Empty(cfg), ops), Build(Body(cfg, ops, false));
    DenseBuild(cfg, ops);
    SameOwn(s, t, i);
    SameOwn(s, t, i + 1);
    assert Touches(t, i);
    hide Run, AlignUp, OwnMember;
  }
}
