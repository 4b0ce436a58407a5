/** What each layout operation does to a record, as functions on the record's whole state. */
module RecordLayout {
  import opened Alignment

  /** A member's type, as far as layout reads it. `align` is what its `alignment()` answers
      (0 is read as 1); `bitFieldUnsigned` is the signedness a bit-field of it gets. */
  datatype FieldType = FieldType(size: nat, align: nat, emptyClass: bool,
                                 isUnsigned: bool, bitFieldUnsigned: bool)

  /** `pragmaPack` is the part of `pack` that `#pragma pack` set. */
  datatype Config = Config(microsoft: bool, pack: nat, pragmaPack: nat, isUnion: bool, reverse: bool)

  datatype Member = Member(name: string, ty: FieldType, count: nat, runtimeSized: bool)

  /** Offsets are integers so that an unsigned wrap in the source shows as a negative number. */
  datatype BitField = BitField(isBitField: bool, storageOffset: int, storageSize: nat,
                               bitOffset: int, bitWidth: nat, isUnsigned: bool, reverse: bool)

  /** Members [first, first + count) are the flattened members of `agg`, placed at `offset`. */
  datatype Group = Group(first: nat, count: nat, agg: Layout, offset: int)

  datatype Layout = Layout(
    cfg: Config,
    members: seq<Member>, offsets: seq<int>, bits: seq<BitField>, groups: seq<Group>,
    explicitAlign: map<nat, nat>, packed: set<nat>,
    size: nat, maxAlign: nat, tagAlign: nat,
    active: bool, unitOffset: nat, unitSize: nat, nextBit: nat, previousBits: bool)

  const PLAIN := BitField(false, 0, 0, 0, 0, false, false)

  /** The parallel lists have one entry a member. */
  predicate Lists(s: Layout) {
    |s.offsets| == |s.members| && |s.bits| == |s.members|
  }

  function Empty(cfg: Config): Layout {
    Layout(cfg, [], [], [], [], map[], {}, 0, 1, 0, false, 0, 0, 0, false)
  }

  // ----- field sizes and alignments

  function NaturalAlign(ty: FieldType): (a: nat)
    ensures a != 0
  {
    if ty.align == 0 then 1 else ty.align
  }

  function Capped(align: nat, cap: nat): nat {
    if cap != 0 && cap < align then cap else align
  }

  function FieldAlign(cfg: Config, ty: FieldType): nat {
    Capped(NaturalAlign(ty), cfg.pack)
  }

  function StorageSize(ty: FieldType): nat {
    if ty.size == 0 && ty.emptyClass then 1 else ty.size
  }

  function BitStorage(ty: FieldType): (n: nat)
    ensures 0 < n <= 8
  {
    if ty.size == 0 then 4 else if ty.size > 8 then 8 else ty.size
  }

  function MemberBytes(m: Member): nat {
    if m.runtimeSized then 0 else StorageSize(m.ty) * m.count
  }

  /** An aggregate seen as a member type. */
  function TypeOf(agg: Layout): FieldType {
    FieldType(agg.size, agg.maxAlign, false, false, false)
  }

  // ----- the incremental operations

  function EndRun(s: Layout): Layout {
    s.(active := false, unitOffset := 0, unitSize := 0, nextBit := 0)
  }

  function Append(s: Layout, m: Member, offset: int, info: BitField): Layout {
    s.(members := s.members + [m], offsets := s.offsets + [offset], bits := s.bits + [info])
  }

  function AddMember(s: Layout, m: Member): Layout {
    var fa := FieldAlign(s.cfg, m.ty);
    var e := EndRun(s).(previousBits := false, maxAlign := Max(s.maxAlign, fa));
    if s.cfg.isUnion then
      Append(e, m, 0, PLAIN).(size := Max(s.size, MemberBytes(m)))
    else
      var at := AlignUp(s.size, fa);
      Append(e, m, at, PLAIN).(size := at + MemberBytes(m))
  }

  /** The bit the System V rule considers first. */
  function CursorBit(s: Layout): nat {
    if s.cfg.isUnion then 0
    else if s.active then s.unitOffset * 8 + s.nextBit
    else s.size * 8
  }

  function Straddles(cfg: Config): bool {
    cfg.pack != 0 && !cfg.reverse
  }

  function SysVBit(cfg: Config, cursor: nat, storageBits: nat, width: nat): (bit: nat)
    requires storageBits != 0
    ensures cursor <= bit
  {
    if !Straddles(cfg) && cursor % storageBits + width > storageBits
    then AlignUp(cursor, storageBits) else cursor
  }

  function SysVWindow(cfg: Config, bit: nat, storageSize: nat, width: nat): (w: nat)
    requires storageSize != 0
    ensures w * 8 <= bit
  {
    if Straddles(cfg) && bit % (storageSize * 8) + width > storageSize * 8
    then bit / 8
    else
      WindowBelow(bit, storageSize);
      bit / (storageSize * 8) * storageSize
  }

  lemma WindowBelow(bit: nat, storageSize: nat)
    requires storageSize != 0
    ensures bit / (storageSize * 8) * storageSize * 8 <= bit
    ensures bit - bit / (storageSize * 8) * storageSize * 8 == bit % (storageSize * 8)
  {
    var q := bit / (storageSize * 8);
    assert q * storageSize * 8 == q * (storageSize * 8);
  }

  /** The state with the bit cursor on the new field's first bit. */
  function OpenField(s: Layout, ty: FieldType, width: nat): (r: Layout)
    ensures r.members == s.members && r.offsets == s.offsets && r.bits == s.bits && r.groups == s.groups
    ensures r.size >= s.size
  {
    var storage := BitStorage(ty);
    var fa := FieldAlign(s.cfg, ty);
    var e := if s.cfg.isUnion then EndRun(s) else s;
    if s.cfg.microsoft then
      if !e.active || e.unitSize != storage || e.nextBit + width > storage * 8 then
        var start := if s.cfg.isUnion then 0 else AlignUp(e.size, fa);
        e.(maxAlign := Max(e.maxAlign, fa), active := true, unitOffset := start,
           unitSize := storage, nextBit := 0, size := Max(e.size, start + storage))
      else e
    else
      var bit := SysVBit(s.cfg, CursorBit(e), storage * 8, width);
      var window := SysVWindow(s.cfg, bit, storage, width);
      e.(maxAlign := Max(e.maxAlign, fa), active := true, unitOffset := window,
         unitSize := storage, nextBit := bit - window * 8)
  }

  function FieldInfo(at: Layout, ty: FieldType, width: nat): BitField {
    var storage := BitStorage(ty);
    BitField(true, at.unitOffset, storage,
             if at.cfg.reverse then storage * 8 - at.nextBit - width else at.nextBit,
             width, ty.bitFieldUnsigned, at.cfg.reverse)
  }

  /** The state once the open field's `width` bits are taken. */
  function CloseField(at: Layout, ty: FieldType, width: nat): (r: Layout)
    ensures r.members == at.members && r.offsets == at.offsets && r.bits == at.bits
    ensures r.size >= at.size
  {
    var next := at.nextBit + width;
    var r := at.(nextBit := next, previousBits := true,
                     size := Max(at.size, at.unitOffset + (next + 7) / 8));
    if at.cfg.isUnion || (at.cfg.microsoft && next >= BitStorage(ty) * 8) then EndRun(r) else r
  }

  function AddNonzeroBits(s: Layout, name: string, ty: FieldType, width: nat): Layout {
    var at := OpenField(s, ty, width);
    var info := FieldInfo(at, ty, width);
    Append(CloseField(at, ty, width), Member(name, ty, 1, false), at.unitOffset, info)
  }

  /** An unnamed `:0`. */
  function AddBoundary(s: Layout, ty: FieldType): Layout {
    var e := EndRun(s);
    var acts := !s.cfg.isUnion && (!s.cfg.microsoft || s.previousBits);
    var fa := if s.cfg.microsoft then FieldAlign(s.cfg, ty) else NaturalAlign(ty);
    var size := if acts then AlignUp(s.size, fa) else s.size;
    var at := if s.cfg.isUnion then 0 else size;
    var align := if acts && s.cfg.microsoft
                 then Max(s.maxAlign, Capped(NaturalAlign(ty), s.cfg.pragmaPack)) else s.maxAlign;
    Append(e.(size := size, maxAlign := align, previousBits := false),
           Member("", ty, 1, false), at,
           BitField(true, at, BitStorage(ty), 0, 0, ty.isUnsigned, s.cfg.reverse))
  }

  function AddBitField(s: Layout, name: string, ty: FieldType, width: nat): Layout {
    if name == "" && width == 0 then AddBoundary(s, ty) else AddNonzeroBits(s, name, ty, width)
  }

  function Moved(info: BitField, delta: int): BitField {
    if info.isBitField then info.(storageOffset := info.storageOffset + delta) else info
  }

  function MovedAll(bits: seq<BitField>, delta: int): (r: seq<BitField>)
    ensures |r| == |bits|
  {
    seq(|bits|, i requires 0 <= i < |bits| => Moved(bits[i], delta))
  }

  function Shifted(offsets: seq<int>, delta: int): (r: seq<int>)
    ensures |r| == |offsets|
  {
    seq(|offsets|, i requires 0 <= i < |offsets| => offsets[i] + delta)
  }

  function ShiftSet(s: set<nat>, delta: nat, limit: nat): set<nat> {
    set i | i in s && i < limit :: delta + i
  }

  function ShiftKeys(m: map<nat, nat>, delta: nat, limit: nat): map<nat, nat> {
    map k | k in ShiftSet(m.Keys, delta, limit) :: m[k - delta]
  }

  function AggAlign(cfg: Config, agg: Layout): nat {
    FieldAlign(cfg, TypeOf(agg))
  }

  function AddAnonymous(s: Layout, agg: Layout): Layout {
    var fa := AggAlign(s.cfg, agg);
    var base := if s.cfg.isUnion then 0 else AlignUp(s.size, fa);
    var first := |s.members|;
    var n := |agg.members|;
    EndRun(s).(
      previousBits := false,
      maxAlign := Max(s.maxAlign, fa),
      members := s.members + agg.members,
      offsets := s.offsets + Shifted(agg.offsets, base),
      bits := s.bits + MovedAll(agg.bits, base),
      explicitAlign := s.explicitAlign + ShiftKeys(agg.explicitAlign, first, n),
      packed := s.packed + ShiftSet(agg.packed, first, n),
      size := if s.cfg.isUnion then Max(s.size, base + agg.size) else base + agg.size,
      groups := if n > 0 then s.groups + [Group(first, n, agg, base)] else s.groups)
  }

  // ----- attributes and completion

  function ApplyTagAlignment(s: Layout, align: nat): Layout {
    s.(maxAlign := Max(s.maxAlign, align), tagAlign := Max(s.tagAlign, align))
  }

  /** aligned(N) recorded for member i; 0 when there is none. */
  function ExplicitAt(s: Layout, i: nat): nat {
    if i in s.explicitAlign then s.explicitAlign[i] else 0
  }

  predicate AlignIgnored(s: Layout, align: nat) {
    align == 0 || |s.members| == 0 ||
    (|s.members| - 1 in s.explicitAlign && s.explicitAlign[|s.members| - 1] >= align)
  }

  function ApplyMemberAlignment(s: Layout, align: nat): Layout {
    if AlignIgnored(s, align) || |s.offsets| == 0 then s else
      var r := s.(maxAlign := Max(s.maxAlign, align),
                  explicitAlign := s.explicitAlign[|s.members| - 1 := align]);
      if s.cfg.isUnion then r else
        var last := |s.offsets| - 1;
        var at := AlignUp(s.offsets[last], align);
        r.(offsets := s.offsets[last := at], size := s.size + (at - s.offsets[last]))
  }

  /** `cppMinObjectSize`: a completed aggregate without members has size 1 in C++. */
  function Finalize(s: Layout, cppMinObjectSize: bool): Layout {
    var size := if cppMinObjectSize && s.size == 0 && |s.members| == 0 then 1 else s.size;
    EndRun(s).(size := AlignUp(size, s.maxAlign))
  }

  /** The bit number counted forward from the start of the storage unit. */
  function Forward(info: BitField): int {
    if info.reverse then info.storageSize * 8 - info.bitOffset - info.bitWidth else info.bitOffset
  }

  function Flipped(info: BitField, reverse: bool): BitField {
    if !info.isBitField then info else
      info.(bitOffset := if reverse then info.storageSize * 8 - Forward(info) - info.bitWidth else Forward(info),
            reverse := reverse)
  }

  function FlippedAll(bits: seq<BitField>, reverse: bool): (r: seq<BitField>)
    ensures |r| == |bits|
  {
    seq(|bits|, i requires 0 <= i < |bits| => Flipped(bits[i], reverse))
  }

  function SetReverse(s: Layout, reverse: bool): Layout {
    s.(cfg := s.cfg.(reverse := reverse), bits := FlippedAll(s.bits, reverse))
  }

  // ----- replaying the recorded members

  /** One declaration as a replay sees it; `align` is 0 without an aligned(N). */
  datatype Decl =
    | Own(m: Member, isBits: bool, width: nat, packed: bool, align: nat)
    | Anon(agg: Layout)

  /** The parallel lists agree, and the anonymous groups take stretches of them in order. */
  ghost predicate WellFormed(s: Layout) {
    && Lists(s)
    && (forall i :: 0 <= i < |s.members| ==> SingleIfBits(s, i))
    && (forall g :: 0 <= g < |s.groups| ==> GroupFits(s, s.groups[g]))
    && GroupsOrdered(s)
  }

  /** A bit-field is one member without a run-time size; a plain member has no width. */
  predicate SingleIfBits(s: Layout, i: nat)
    requires i < |s.members| && i < |s.bits|
  {
    if s.bits[i].isBitField then s.members[i].count == 1 && !s.members[i].runtimeSized
    else s.bits[i].bitWidth == 0
  }

  /** The groups are in member order without overlap. */
  ghost predicate GroupsOrdered(s: Layout) {
    forall g :: 0 <= g < |s.groups| - 1 ==> s.groups[g].first + s.groups[g].count <= s.groups[g + 1].first
  }

  ghost predicate GroupFits(s: Layout, g: Group) {
    && 0 < g.count == |g.agg.members| && g.first + g.count <= |s.members| && |s.bits| == |s.members|
    && |g.agg.bits| == g.count && |g.agg.offsets| == g.count
    && s.members[g.first..g.first + g.count] == g.agg.members
    && forall k :: 0 <= k < g.count ==> SameShape(s.bits[g.first + k], g.agg.bits[k])
  }

  /** Two placements of one member: both a bit-field of the same width, or neither one. */
  predicate SameShape(a: BitField, b: BitField) {
    a.isBitField == b.isBitField && a.bitWidth == b.bitWidth
  }

  function OwnAt(s: Layout, i: nat): Decl
    requires i < |s.members| && i < |s.bits|
  {
    Own(s.members[i], s.bits[i].isBitField, s.bits[i].bitWidth, i in s.packed, ExplicitAt(s, i))
  }

  /** Whether the unit at member i is the anonymous group number g. */
  predicate GroupStarts(s: Layout, i: nat, g: nat) {
    g < |s.groups| && s.groups[g].first == i && s.groups[g].count > 0
  }

  /** Group g lies wholly before member i: the replay's cursor moves past it. */
  predicate GroupPassed(s: Layout, i: nat, g: nat) {
    g < |s.groups| && s.groups[g].first < i
  }

  /** The declarations that members i.. and groups g.. record. */
  function Decls(s: Layout, i: nat, g: nat): seq<Decl>
    decreases |s.members| - i, |s.groups| - g
  {
    if i >= |s.members| || i >= |s.bits| then []
    else if GroupPassed(s, i, g) then Decls(s, i, g + 1)
    else if GroupStarts(s, i, g) then [Anon(s.groups[g].agg)] + Decls(s, i + s.groups[g].count, g + 1)
    else [OwnAt(s, i)] + Decls(s, i + 1, g)
  }

  function PackedConfig(cfg: Config, packed: bool): Config {
    if packed then cfg.(pack := 1) else cfg
  }

  function UnderPack(r: Layout, packed: bool): Layout {
    r.(cfg := PackedConfig(r.cfg, packed))
  }

  /** An own member replayed, before its aligned(N); a packed one is added under a pack of 1. */
  function AddOwn(r: Layout, d: Decl): (q: Layout)
    requires d.Own?
    ensures q.size >= r.size
  {
    var c := UnderPack(r, d.packed);
    var a := if d.isBits then AddBitField(c, d.m.name, d.m.ty, d.width) else AddMember(c, d.m);
    a.(cfg := r.cfg)
  }

  function Step(r: Layout, d: Decl): (q: Layout)
    ensures q.size >= r.size
  {
    if d.Anon? then AddAnonymous(r, d.agg) else ApplyMemberAlignment(AddOwn(r, d), d.align)
  }

  function Fold(r: Layout, ds: seq<Decl>): (q: Layout)
    ensures q.size >= r.size
    decreases |ds|
  {
    if ds == [] then r else Fold(Step(r, ds[0]), ds[1..])
  }

  /** The scratch record a replay from `start` builds. */
  function Replay(s: Layout, start: nat): (r: Layout)
    ensures r.size >= start
  {
    Fold(Empty(s.cfg).(size := start), Decls(s, 0, 0))
  }

  function MovedGroups(groups: seq<Group>, delta: int): (r: seq<Group>)
    ensures |r| == |groups|
  {
    seq(|groups|, i requires 0 <= i < |groups| => groups[i].(offset := groups[i].offset + delta))
  }

  /** `s` with the layout of `r`, which was laid out from `start`, taken relative to it. */
  function Rebased(s: Layout, r: Layout, start: nat): Layout
    requires r.size >= start
  {
    var back: int := 0 - start;
    s.(offsets := Shifted(r.offsets, back), bits := MovedAll(r.bits, back),
       groups := MovedGroups(r.groups, back), size := r.size - start,
       maxAlign := Max(r.maxAlign, s.tagAlign),
       active := r.active, previousBits := r.previousBits,
       unitOffset := if r.unitOffset >= start then r.unitOffset - start else 0,
       unitSize := r.unitSize, nextBit := r.nextBit)
  }

  /** The recorded members laid out again, as if the record's first byte were at `start`. */
  function RelayoutFrom(s: Layout, start: nat): Layout
  {
    Rebased(s, Replay(s, start), start)
  }

  function Relayout(s: Layout): Layout
  {
    RelayoutFrom(s, 0)
  }

  function ApplyMemberPacking(s: Layout): Layout
  {
    if |s.members| == 0 || |s.members| - 1 in s.packed then s
    else Relayout(s.(packed := s.packed + {|s.members| - 1}))
  }
}
