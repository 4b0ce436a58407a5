/** The flat type arena: records addressed by id, append-only payload, and its frozen view. */
module TypeArena {
  import opened Common

  const WORD_LIMIT := 0x1_0000_0000

  type word = x: int | 0 <= x < WORD_LIMIT

  const PROJECT_BASE: word := 0x0100_0000

  /** Words of one type record; the first is its kind, 0 for an unset slot. */
  const STRIDE := 54

  /** What an unset slot holds. */
  function Zeros(n: nat): (r: seq<word>)
    ensures |r| == n && forall k :: 0 <= k < n ==> r[k] == 0
  {
    if n == 0 then [] else Zeros(n - 1) + [0]
  }

  predicate IsProject(id: word) {
    id >= PROJECT_BASE
  }

  function SlotOf(id: word): nat
    requires IsProject(id)
  {
    id - PROJECT_BASE
  }

  // ----- words, records and runs

  /** `w` words at offset `off`, if they are all there. */
  function Read(words: seq<word>, off: nat, w: nat): Option<seq<word>> {
    if off + w > |words| then None else Some(words[off..off + w])
  }

  function Resized(words: seq<word>, n: nat): (r: seq<word>)
    ensures |r| == if n > |words| then n else |words|
  {
    if n > |words| then words + Zeros(n - |words|) else words
  }

  function Overwritten(words: seq<word>, off: nat, rec: seq<word>): (r: seq<word>)
    requires off + |rec| <= |words|
    ensures |r| == |words|
  {
    words[..off] + rec + words[off + |rec|..]
  }

  function SetDef(defs: seq<word>, slot: nat, r: seq<word>): seq<word>
    requires |r| == STRIDE
  {
    Overwritten(Resized(defs, (slot + 1) * STRIDE), slot * STRIDE, r)
  }

  function GetDef(defs: seq<word>, id: word): Option<seq<word>> {
    if IsProject(id) then Read(defs, SlotOf(id) * STRIDE, STRIDE) else None
  }

  predicate HasDef(defs: seq<word>, id: word) {
    GetDef(defs, id).Some? && GetDef(defs, id).value[0] != 0
  }

  // ----- the live arena refines a map from ids to their last records

  datatype Write = Write(id: word, r: seq<word>)

  predicate LegalWrites(writes: seq<Write>) {
    forall k :: 0 <= k < |writes| ==> IsProject(writes[k].id) && |writes[k].r| == STRIDE
  }

  function Written(defs: seq<word>, writes: seq<Write>): seq<word>
    requires LegalWrites(writes)
    decreases |writes|
  {
    if writes == [] then defs else
      var n := |writes| - 1;
      SetDef(Written(defs, writes[..n]), SlotOf(writes[n].id), writes[n].r)
  }

  /** The record last written at id; Zeros(STRIDE) when there is none. */
  function LastWritten(writes: seq<Write>, id: word): (r: seq<word>)
    requires LegalWrites(writes)
    ensures |r| == STRIDE
    decreases |writes|
  {
    if writes == [] then Zeros(STRIDE) else
      var n := |writes| - 1;
      if writes[n].id == id then writes[n].r else LastWritten(writes[..n], id)
  }

  /** One past the highest slot written. */
  function Slots(writes: seq<Write>): nat
    requires LegalWrites(writes)
    decreases |writes|
  {
    if writes == [] then 0 else
      var n := |writes| - 1;
      var before, slot := Slots(writes[..n]), SlotOf(writes[n].id);
      if slot + 1 > before then slot + 1 else before
  }

  /** Writing one slot: that slot reads back, all others are untouched, new gaps are unset. */
  lemma SetDefReads(defs: seq<word>, slot: nat, r: seq<word>, k: nat)
    requires |r| == STRIDE && |defs| % STRIDE == 0
    ensures var t := SetDef(defs, slot, r);
            && |t| == (if (slot + 1) * STRIDE > |defs| then (slot + 1) * STRIDE else |defs|)
            && Read(t, k * STRIDE, STRIDE)
               == (if k == slot then Some(r)
                   else if (k + 1) * STRIDE <= |defs| then Read(defs, k * STRIDE, STRIDE)
                   else if (k + 1) * STRIDE <= |t| then Some(Zeros(STRIDE)) else None)
  {
    var big := Resized(defs, (slot + 1) * STRIDE);
    var t := SetDef(defs, slot, r);
    assert forall x :: 0 <= x < |t| ==>
      t[x] == if slot * STRIDE <= x < (slot + 1) * STRIDE then r[x - slot * STRIDE] else big[x];
    if (k + 1) * STRIDE <= |t| {
      var got := t[k * STRIDE..(k + 1) * STRIDE];
      assert forall x :: 0 <= x < STRIDE ==> got[x] == t[k * STRIDE + x];
      if k == slot {
        assert got == r;
      } else if (k + 1) * STRIDE <= |defs| {
        assert got == defs[k * STRIDE..(k + 1) * STRIDE];
      } else {
        assert got == Zeros(STRIDE);
      }
    }
  }

  /** What one more write adds to each of the four functions. */
  lemma OneMoreWrite(writes: seq<Write>, id: word)
    requires LegalWrites(writes) && writes != []
    ensures var before, w := writes[..|writes| - 1], writes[|writes| - 1];
            && LegalWrites(before) && IsProject(w.id) && |w.r| == STRIDE
            && Written([], writes) == SetDef(Written([], before), SlotOf(w.id), w.r)
            && LastWritten(writes, id) == (if w.id == id then w.r else LastWritten(before, id))
            && Slots(writes) == (if SlotOf(w.id) + 1 > Slots(before) then SlotOf(w.id) + 1 else Slots(before))
  {
    hide SetDef;
  }

  /** Reading a slot, in the terms of Read. */
  lemma ReadsOneSlot(defs: seq<word>, slots: nat, id: word)
    requires |defs| == slots * STRIDE
    ensures GetDef(defs, id).Some? <==> IsProject(id) && SlotOf(id) < slots
    ensures IsProject(id) ==> GetDef(defs, id) == Read(defs, SlotOf(id) * STRIDE, STRIDE)
  {}

  /** get_def_at answers the last record written, an all-zero one for a gap below the highest
      slot written, and nothing above it or for an id that is no project id. */
  lemma {:induction false} ArenaIsAMap(writes: seq<Write>, id: word)
    requires LegalWrites(writes)
    ensures var defs := Written([], writes);
            && |defs| == Slots(writes) * STRIDE
            && (GetDef(defs, id).Some? <==> IsProject(id) && SlotOf(id) < Slots(writes))
            && (GetDef(defs, id).Some? ==> GetDef(defs, id).value == LastWritten(writes, id))
    decreases |writes|
  {
    if writes != [] {
      var before, w := writes[..|writes| - 1], writes[|writes| - 1];
      var defs := Written([], before);
      OneMoreWrite(writes, id);
      ArenaIsAMap(before, id);
      SetDefReads(defs, SlotOf(w.id), w.r, if IsProject(id) then SlotOf(id) else 0);
      if IsProject(id) && SlotOf(id) >= Slots(before) { UnwrittenAbove(before, id); }
      ReadsOneSlot(defs, Slots(before), id);
      ReadsOneSlot(SetDef(defs, SlotOf(w.id), w.r), Slots(writes), id);
      hide SetDef, GetDef, Read, Written, LastWritten, Slots, LegalWrites;
    }
  }

  lemma {:induction false} UnwrittenAbove(writes: seq<Write>, id: word)
    requires LegalWrites(writes)
    requires IsProject(id) && SlotOf(id) >= Slots(writes)
    ensures LastWritten(writes, id) == Zeros(STRIDE)
    decreases |writes|
  {
    if writes != [] { UnwrittenAbove(writes[..|writes| - 1], id); }
  }

  /** So a record is present exactly where the last write put one of a set kind; but reading a
      never-written id succeeds exactly when a higher slot was written. */
  lemma PresenceAndGaps(writes: seq<Write>, id: word)
    requires LegalWrites(writes)
    ensures HasDef(Written([], writes), id) <==> IsProject(id) && LastWritten(writes, id)[0] != 0
    ensures IsProject(id) && (forall w :: w in writes ==> w.id != id) ==>
              (GetDef(Written([], writes), id).Some? <==> exists w :: w in writes && w.id > id)
  {
    ArenaIsAMap(writes, id);
    if IsProject(id) && SlotOf(id) >= Slots(writes) { UnwrittenAbove(writes, id); }
    if IsProject(id) && forall w :: w in writes ==> w.id != id { SlotsReach(writes, SlotOf(id)); }
  }

  /** One write to the second project id: the first, never written, reads as a record of zeros. */
  lemma GapReadsAsZeros(r: seq<word>)
    requires |r| == 54
    ensures var writes := [Write(0x0100_0001, r)];
            && LegalWrites(writes) && (forall w :: w in writes ==> w.id != 0x0100_0000)
            && |Written([], writes)| == 108 && GetDef(Written([], writes), 0x0100_0000) == Some(Zeros(54))
  {
    var writes := [Write(PROJECT_BASE + 1, r)];
    assert writes[..0] == [];
    ArenaIsAMap(writes, PROJECT_BASE);
    assert LastWritten(writes, PROJECT_BASE) == LastWritten(writes[..0], PROJECT_BASE);
  }

  lemma {:induction false} SlotsReach(writes: seq<Write>, slot: nat)
    requires LegalWrites(writes)
    ensures slot < Slots(writes) <==> exists w :: w in writes && SlotOf(w.id) >= slot
    decreases |writes|
  {
    if writes != [] {
      var n := |writes| - 1;
      SlotsReach(writes[..n], slot);
      assert writes == writes[..n] + [writes[n]];
    }
  }

  // ----- payload runs

  /** The i-th record, `w` words wide, of the run that begins at word `begin`. */
  function GetPayload(payload: seq<word>, begin: word, i: word, w: nat): Option<seq<word>> {
    Read(payload, begin + i * w, w)
  }

  /** The live arena adds the two 32-bit numbers before widening them. */
  function GetWord(payload: seq<word>, begin: word, i: word): Option<word> {
    var off := (begin + i) % WORD_LIMIT;
    if off >= |payload| then None else Some(payload[off])
  }

  function Appended(payload: seq<word>, run: seq<seq<word>>): seq<word>
    decreases |run|
  {
    if run == [] then payload else Appended(payload, run[..|run| - 1]) + run[|run| - 1]
  }

  lemma {:induction false} AppendedLength(payload: seq<word>, run: seq<seq<word>>, w: nat)
    requires forall k :: 0 <= k < |run| ==> |run[k]| == w
    ensures |Appended(payload, run)| == |payload| + |run| * w && payload <= Appended(payload, run)
    decreases |run|
  {
    if run != [] {
      AppendedLength(payload, run[..|run| - 1], w);
      assert |run| * w == (|run| - 1) * w + w;
    }
  }

  /** A run appended record by record reads back by its begin and count, whatever is appended later. */
  lemma {:induction false} RunReadsBack(payload: seq<word>, run: seq<seq<word>>, later: seq<word>, i: nat, w: nat)
    requires forall k :: 0 <= k < |run| ==> |run[k]| == w
    requires i < |run| < WORD_LIMIT && |payload| < WORD_LIMIT
    ensures GetPayload(Appended(payload, run) + later, |payload|, i, w) == Some(run[i])
    decreases |run|
  {
    var n := |run| - 1;
    AppendedLength(payload, run[..n], w);
    var before, all := Appended(payload, run[..n]), Appended(payload, run) + later;
    assert all == before + (run[n] + later);
    if i == n {
      assert all[|before|..|before| + w] == run[n];
    } else {
      RunReadsBack(payload, run[..n], run[n] + later, i, w);
    }
  }

  // ----- runs of single words

  /** Where word i of a run that begins at word n of the payload is looked up: the begin is stored
      in 32 bits, and the sum taken in 32 bits. */
  lemma WordLookup(payload: seq<word>, n: nat, i: word)
    ensures var off := (n + i) % WORD_LIMIT;
            GetWord(payload, n % WORD_LIMIT, i) == if off >= |payload| then None else Some(payload[off])
  {
    assert (n % WORD_LIMIT + i) % WORD_LIMIT == (n + i) % WORD_LIMIT;
  }

  /** A run of words appended at the payload's end reads back word by word, whatever is appended
      later, as long as its words lie below 2^32. */
  lemma WordRunReadsBack(payload: seq<word>, run: seq<word>, later: seq<word>, i: word)
    requires i < |run| && |payload| + i < WORD_LIMIT
    ensures GetWord(payload + run + later, |payload| % WORD_LIMIT, i) == Some(run[i])
  {
    WordLookup(payload + run + later, |payload|, i);
  }

  /** Word i of a run begun at word n reads back for all contents. */
  ghost predicate ReadsBack(n: nat, i: word) {
    forall payload: seq<word>, run: seq<word> | |payload| == n && i < |run| ::
      GetWord(payload + run, n % WORD_LIMIT, i) == Some(run[i])
  }

  /** Past 2^32 a lookup wraps round and answers an earlier word: a run's word is sure to read back
      exactly when it lies below. */
  lemma WordRunReadsBackIff(n: nat, i: word)
    ensures ReadsBack(n, i) <==> n + i < WORD_LIMIT
  {
    if n + i < WORD_LIMIT {
      forall payload: seq<word>, run: seq<word> | |payload| == n && i < |run|
        ensures GetWord(payload + run, n % WORD_LIMIT, i) == Some(run[i])
      {
        WordRunReadsBack(payload, run, [], i);
        assert payload + run + [] == payload + run;
      }
    } else {
      var payload: seq<word>, run: seq<word> := Zeros(n), Zeros(i) + [1];
      WordLookup(payload + run, n, i);
      var off := (n + i) % WORD_LIMIT;
      assert off < n + i;
      assert (payload + run)[off] == 0;
    }
  }

  // ----- the live arena

  class DefArena {
    var defs: seq<word>
    var payload: seq<word>
    var tokbytes: seq<int>

    constructor ()
      ensures defs == [] && payload == [] && tokbytes == []
    {
      defs, payload, tokbytes := [], [], [];
    }

    method SetDefAt(projectId: word, r: seq<word>)
      requires IsProject(projectId) && |r| == STRIDE
      modifies `defs
      ensures defs == SetDef(old(defs), SlotOf(projectId), r)
    {
      var slot := SlotOf(projectId);
      var need := (slot + 1) * STRIDE;
      if |defs| < need { defs := Resized(defs, need); }
      defs := defs[..slot * STRIDE] + r + defs[slot * STRIDE + STRIDE..];
    }

    function GetDefAt(projectId: word): Option<seq<word>>
      reads this
    {
      if !IsProject(projectId) then None
      else if SlotOf(projectId) * STRIDE + STRIDE > |defs| then None
      else Some(defs[SlotOf(projectId) * STRIDE..SlotOf(projectId) * STRIDE + STRIDE])
    }

    function HasDef(projectId: word): bool
      reads this
    {
      GetDefAt(projectId).Some? && GetDefAt(projectId).value[0] != 0
    }

    /** Appends a record's words one by one; answers where it starts. */
    method AddPayload(rec: seq<word>) returns (off: word)
      modifies `payload
      ensures payload == old(payload) + rec && off == |old(payload)| % WORD_LIMIT
    {
      off := |payload| % WORD_LIMIT;
      for k := 0 to |rec|
        invariant payload == old(payload) + rec[..k]
      {
        payload := payload + [rec[k]];
      }
    }

    method AddWord(w: word) returns (off: word)
      modifies `payload
      ensures payload == old(payload) + [w] && off == |old(payload)| % WORD_LIMIT
    {
      off := |payload| % WORD_LIMIT;
      payload := payload + [w];
    }

    method AddTokbytes(bytes: seq<int>) returns (off: word)
      modifies `tokbytes
      ensures tokbytes == old(tokbytes) + bytes && off == |old(tokbytes)| % WORD_LIMIT
    {
      off := |tokbytes| % WORD_LIMIT;
      tokbytes := tokbytes + bytes;
    }
  }

  // ----- the frozen view

  /** Spans bound in place; None is a null pointer. */
  class FrozenDefArena {
    var defs: Option<seq<word>>
    var payload: Option<seq<word>>
    var defPos: Option<seq<word>>

    constructor ()
      ensures defs == None && payload == None && defPos == None
    {
      defs, payload, defPos := None, None, None;
    }

    method BindDefs(words: Option<seq<word>>)
      modifies `defs
      ensures defs == words
    {
      defs := words;
    }

    method BindPayload(words: Option<seq<word>>)
      modifies `payload
      ensures payload == words
    {
      payload := words;
    }

    method BindDefPositions(positions: Option<seq<word>>)
      modifies `defPos
      ensures defPos == positions
    {
      defPos := positions;
    }

    function GetDefAt(projectId: word): Option<seq<word>>
      reads this
    {
      if !IsProject(projectId) then None else
        var slot := SlotOf(projectId);
        if defPos.Some? && slot >= |defPos.value| then None else
          var off := (if defPos.Some? then defPos.value[slot] else slot) * STRIDE;
          if defs.None? || off + STRIDE > |defs.value| then None else Some(defs.value[off..off + STRIDE])
    }

    function HasDef(projectId: word): bool
      reads this
    {
      GetDefAt(projectId).Some? && GetDefAt(projectId).value[0] != 0
    }

    function GetPayload(begin: word, i: word, w: nat): Option<seq<word>>
      reads this
    {
      var off := begin + i * w;
      if payload.None? || off + w > |payload.value| then None else Some(payload.value[off..off + w])
    }

    /** The frozen view widens before it adds. */
    function GetWord(begin: word, i: word): Option<word>
      reads this
    {
      var off := begin + i;
      if payload.None? || off >= |payload.value| then None else Some(payload.value[off])
    }
  }

  /** A dumped block as it is bound: an empty one may come back as a null span. */
  predicate Dumps(block: seq<word>, span: Option<seq<word>>) {
    span == Some(block) || (block == [] && span == None)
  }

  predicate RecordIs(words: seq<word>, at: nat, r: seq<word>) {
    Read(words, at * STRIDE, STRIDE) == Some(r)
  }

  /** The record at position `at` of a block. */
  function RecordAt(words: seq<word>, at: nat): (r: seq<word>)
    requires (at + 1) * STRIDE <= |words|
    ensures |r| == STRIDE
  {
    words[at * STRIDE..(at + 1) * STRIDE]
  }

  /** `relaid` holds slot k's record of `defs` at position `pos[k]`, for every slot. */
  ghost predicate Relaid(defs: seq<word>, relaid: seq<word>, pos: seq<word>) {
    && |defs| == |pos| * STRIDE == |relaid|
    && forall k :: 0 <= k < |pos| ==>
         pos[k] < |pos| && RecordIs(relaid, pos[k], RecordAt(defs, k))
  }

  /** The records of a block, in which slot k's is at position at[k], laid out anew in `order`:
      the live arena's records are still all there, each at the position now noted for its slot. */
  method DefsInOrder(ghost live: seq<word>, defs: seq<word>, at: seq<word>, order: seq<nat>)
      returns (relaid: seq<word>, pos: seq<word>)
    requires Relaid(live, defs, at) && |order| == |at| < WORD_LIMIT
    requires forall k :: 0 <= k < |order| ==> order[k] < |at|
    requires forall slot: nat :: slot < |at| ==> slot in order
    ensures Relaid(live, relaid, pos) && |pos| == |at|
  {
    relaid, pos := Zeros(|defs|), Zeros(|at|);
    for k := 0 to |order|
      invariant |relaid| == |defs| && |pos| == |at|
      invariant forall j :: 0 <= j < k ==> RecordIs(relaid, j, RecordAt(live, order[j]))
      invariant forall slot: nat :: slot in order[..k] ==> slot < |at| && pos[slot] < k && order[pos[slot]] == slot
    {
      var slot := order[k];
      assert RecordIs(defs, at[slot], RecordAt(live, slot));
      var r := RecordAt(defs, at[slot]);
      assert r == RecordAt(live, slot);
      hide RecordAt, RecordIs, Relaid;
      RecordsKept(relaid, k, r, live, order);
      relaid := Overwritten(relaid, k * STRIDE, r);
      pos := pos[slot := k];
    }
    assert order[..|order|] == order;
  }

  /** Position k takes a record; those before it keep theirs. */
  lemma RecordsKept(relaid: seq<word>, k: nat, r: seq<word>, live: seq<word>, order: seq<nat>)
    requires |r| == STRIDE && (k + 1) * STRIDE <= |relaid| && k < |order|
    requires forall j :: 0 <= j <= k ==> (order[j] + 1) * STRIDE <= |live|
    requires r == RecordAt(live, order[k])
    requires forall j :: 0 <= j < k ==> RecordIs(relaid, j, RecordAt(live, order[j]))
    ensures forall j :: 0 <= j <= k ==> RecordIs(Overwritten(relaid, k * STRIDE, r), j, RecordAt(live, order[j]))
  {
    hide Read, Overwritten, RecordAt;
    forall j | 0 <= j <= k ensures RecordIs(Overwritten(relaid, k * STRIDE, r), j, RecordAt(live, order[j])) {
      OverwrittenReads(relaid, k, r, j);
      assert j < k ==> RecordIs(relaid, j, RecordAt(live, order[j]));
    }
  }

  lemma OverwrittenReads(words: seq<word>, at: nat, r: seq<word>, k: nat)
    requires |r| == STRIDE && (at + 1) * STRIDE <= |words| && (k + 1) * STRIDE <= |words|
    ensures Read(Overwritten(words, at * STRIDE, r), k * STRIDE, STRIDE)
         == (if k == at then Some(r) else Read(words, k * STRIDE, STRIDE))
  {
    var t := Overwritten(words, at * STRIDE, r);
    assert forall x :: 0 <= x < |t| ==>
      t[x] == if at * STRIDE <= x < (at + 1) * STRIDE then r[x - at * STRIDE] else words[x];
    if k == at {
      assert t[k * STRIDE..(k + 1) * STRIDE] == r;
    } else {
      assert t[k * STRIDE..(k + 1) * STRIDE] == words[k * STRIDE..(k + 1) * STRIDE];
    }
  }

  /** The frozen view answers every record lookup as the live arena does: bound to the dumped
      block as it is, or to its records laid out anew with their positions. */
  lemma FrozenAnswersAsLive(live: DefArena, frozen: FrozenDefArena, id: word)
    requires |live.defs| % STRIDE == 0
    requires match frozen.defPos
             case None => Dumps(live.defs, frozen.defs)
             case Some(pos) => frozen.defs.Some? && Relaid(live.defs, frozen.defs.value, pos)
    ensures frozen.GetDefAt(id) == live.GetDefAt(id) == GetDef(live.defs, id)
    ensures frozen.HasDef(id) == live.HasDef(id) == HasDef(live.defs, id)
  {
    if IsProject(id) && frozen.defPos.Some? {
      var pos, k := frozen.defPos.value, SlotOf(id);
      if k < |pos| { assert RecordIs(frozen.defs.value, pos[k], RecordAt(live.defs, k)); }
    }
  }

  lemma FrozenPayloadAnswersAsLive(live: DefArena, frozen: FrozenDefArena, begin: word, i: word, w: nat)
    requires Dumps(live.payload, frozen.payload) && w > 0
    ensures frozen.GetPayload(begin, i, w) == GetPayload(live.payload, begin, i, w)
  {}

  /** Single words agree exactly when the 32-bit sum does not wrap round into the payload. */
  lemma FrozenWordAgreesIff(live: DefArena, frozen: FrozenDefArena, begin: word, i: word)
    requires Dumps(live.payload, frozen.payload) && |live.payload| <= WORD_LIMIT
    ensures frozen.GetWord(begin, i) == GetWord(live.payload, begin, i) <==>
              begin + i < WORD_LIMIT || begin + i - WORD_LIMIT >= |live.payload|
  {
    assert (begin + i) % WORD_LIMIT == if begin + i < WORD_LIMIT then begin + i else begin + i - WORD_LIMIT;
  }

  /** With begin 2^32 - 1 and index 1 the live lookup wraps to word 0; the frozen one is out of range. */
  lemma WrappedLookupsDiffer(live: DefArena, frozen: FrozenDefArena)
    requires live.payload == [7] && frozen.payload == Some([7])
    ensures GetWord(live.payload, 0xFFFF_FFFF, 1) == Some(7) && frozen.GetWord(0xFFFF_FFFF, 1) == None
  {}

  /** Dumps the live arena's blocks, the records in the given order, and binds them. */
  method Freeze(live: DefArena, order: seq<nat>) returns (frozen: FrozenDefArena)
    requires |live.defs| == |order| * STRIDE && |order| < WORD_LIMIT
    requires forall k :: 0 <= k < |order| ==> order[k] < |order|
    requires forall slot: nat :: slot < |order| ==> slot in order
    ensures fresh(frozen)
    ensures forall id :: frozen.GetDefAt(id) == live.GetDefAt(id) && frozen.HasDef(id) == live.HasDef(id)
    ensures forall begin: word, i: word, w: nat :: w > 0 ==>
              frozen.GetPayload(begin, i, w) == GetPayload(live.payload, begin, i, w)
  {
    var slots := |order|;
    var at: seq<word> := seq(slots, k requires 0 <= k < slots => k);
    SlotOrder(live.defs, at);
    var relaid, pos := DefsInOrder(live.defs, live.defs, at, order);
    frozen := new FrozenDefArena();
    frozen.BindDefs(Some(relaid));
    frozen.BindDefPositions(Some(pos));
    frozen.BindPayload(if live.payload == [] then None else Some(live.payload));
    forall id ensures frozen.GetDefAt(id) == live.GetDefAt(id) && frozen.HasDef(id) == live.HasDef(id) {
      FrozenAnswersAsLive(live, frozen, id);
    }
    forall begin: word, i: word, w: nat | w > 0
      ensures frozen.GetPayload(begin, i, w) == GetPayload(live.payload, begin, i, w)
    {
      FrozenPayloadAnswersAsLive(live, frozen, begin, i, w);
    }
  }

  /** A block as it is, is laid out in slot order. */
  lemma SlotOrder(defs: seq<word>, at: seq<word>)
    requires |defs| == |at| * STRIDE && forall k :: 0 <= k < |at| ==> at[k] == k
    ensures Relaid(defs, defs, at)
  {}
}
