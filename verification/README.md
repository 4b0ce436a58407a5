# Record layout, search kernels, type arena and constant slots

A Dafny model of four groups of code, with proofs about every run of them.

* **Record layout** (`include/datadef.h`, `DataDefSTRUCT`). An aggregate is laid out one member at a time:
  ordinary members, System V and Microsoft bit-fields, unnamed and `:0` bit-fields, flattened anonymous
  aggregates, and attributes that arrive late. `RecordLayout` says what each operation does to the whole state of
  a record; `StructLayout.DataDefStruct` is the class that updates its fields in place, each method proved to
  make exactly that change. `ReplayedLayout` and `Agreement` relate the incremental layout to the batch replay;
  `Placement`, `Windows`, `MemberAlignment`, `RecordAlignment`, `Density`, `Reversal`, `Translation` and `Starts`
  prove what the layout promises; `DeclaredTypes`, `FieldUnits` and `Attributes` say it from the declared types'
  sizes and the attributes' arguments alone; `Units` walks a record's declarations for them. A run is a sequence of `Op`s; an
  anonymous member carries the `Body` of its own type, so every result covers all depths of nesting.
* **Search and concurrency kernels** (`include/doctest.h`). `Wildcard` (the backtracking glob matcher against the
  matching relation), `DecisionTree` and `Traversal` (the rerun loop against the list of a test's leaves),
  `LaneCounter` and `LoadBounds` (the sharded counter under every interleaving) and `SmallString` (the small-buffer
  string against a byte sequence).
* **Type arena** (`include/cir_arena.h`). `TypeArena`: the live arena against a map from ids to records and stable
  payload runs, and the frozen view, its record permutation included, against the live arena.
* **Constant slots and the cast carrier** (`include/datatokens.h`, `include/datadef.h`). `ConstantSlot` and
  `IntegerCast`: typed stores into a byte block, retyping with rollback, and truncation on a 128-bit carrier.

`Alignment` holds the power-of-two arithmetic, `Common` two shared types. `dfyconfig.toml` lists the project.

## Reading the results

* `Replayable` is what a replay needs of a run: powers of two, `aligned(N)` on an own member, anonymous aggregates
  with members. `LegalBody` is what C and the target demand of the declarations: power-of-two alignments, packings
  and bit-field storage, widths within the declared type, width 0 only without a name.
* Layout offsets are integers, so an unsigned wrap of the source shows as a negative number;
  `Translation.WideWindowReachesBefore` has one.
* In `LaneCounter` an `Event` is one atomic step, so a run of events is an interleaving.

## Where a promise does not hold as written

* `get_def_at` is documented to answer false for a never-written slot (`include/cir_arena.h:565-566`). The code
  answers true, with an all-zero record, for a gap below a higher slot: `TypeArena.PresenceAndGaps` says exactly when,
  and `TypeArena.GapReadsAsZeros` is one.
* The live `get_word` adds two 32-bit numbers before it widens them, the frozen one after:
  `TypeArena.FrozenWordAgreesIff` gives the exact condition, `TypeArena.WrappedLookupsDiffer` two answers that
  differ. A word appended past 2^32 is looked up at an earlier place: `TypeArena.WordRunReadsBackIff`.
* `packed` and a reversed storage order after the body (`src/parser.cpp:2797-2808`) lay the record out forward, with
  straddling bit-fields, and then flip it. `Reversal.LateOrderIsEarlyIff` says exactly which records come out as if
  the order had been known from the start, in either direction. `Reversal.StraddlingFlipBreaks` is one that does
  not: a bit offset wraps below 0. `Reversal.ZeroWidthFlipsDiffer` is another. Flipping there and back restores a
  record exactly under the condition of `Reversal.FlipBackRestoresIff`.
* A class lays its block out from 0 when its start is a multiple of the members' alignment
  (`src/parser.cpp:24570-24571`). `Starts.BlockAlignmentIff` says exactly when a replay from that start gives the same
  layout: when every bit-field keeps its unit. `Translation.WideWindowReachesBefore` shows a field that does not: it
  keeps its bit and changes its unit. `Starts.UnitMovesIff` is the closed form: the start is a multiple of the unit, or
  the field may straddle and is recorded from its own first byte at both places.
* `fetch_add` answers what the thread's own lane held. That is the old total, and `++` answers the new one, exactly
  when the other lanes sum to 0 (`LaneCounter.OwnLaneIsTotalIff`). After two threads counted one each, the second one
  was answered 1 and the total is 2 (`LaneCounter.TwoThreadsCount`).
* A concurrent load may answer a value outside the totals at its start and end
  (`LoadBounds.SubtractionBreaksTheBound`). `LoadBounds.LoadIsBetweenIff` says exactly when it does not, for one
  schedule: neither the adds it saw nor those it missed are negative in sum. `LoadBounds.AlwaysBoundedIff` says it for
  all schedules of given adds: no first part and no last part of any lane's adds is negative in sum.
* A constant whose retyping rolls back keeps its 64-bit reading, but a 128-bit value beyond 64 bits is cut:
  `ConstantSlot.RollbackRestoresIff`, with 2^64 in `ConstantSlot.RollbackCutsWideValue`. A floating-point one comes
  back as the whole number read off it: `ConstantSlot.RollbackRestoresFloatIff`. A negative value retyped to
  an unsigned 64- or 128-bit slot passes the check on its 64-bit reading although the slot's value changed:
  `ConstantSlot.Variable.RetypeConstant` states it exactly, `ConstantSlot.RetypingTurnsMinusOne` shows -1.

## At the edge of a precondition

* `relayout` replays an anonymous aggregate as one unit, so an `aligned(N)` given right after one would be forgotten.
  The parsers never give it there (`src/parser.cpp:2814-2821`): it follows an own member that is no bit-field.
  `Agreement.AlignFlattenedAgreesIff` says exactly what would survive, `Agreement.FlattenedAlignIsForgotten` what not.

## Model

| member | source | states |
|---|---|---|
| Alignment.MaskRoundsUp | include/datadef.h:1143 | at every power of two the mask expression, cleared bit by bit, is the arithmetic rounding the model uses |
| Alignment.AlignUpLeast | include/datadef.h:1143 | no multiple of the alignment at or above the value is smaller than the rounded value |
| Alignment.AlignUpUnique | include/datadef.h:1143 | the only multiple in the gap of one alignment above the value is the rounded value |
| Agreement.IncrementalIsBatch | include/datadef.h:1570-1648 | after any run of adds and attributes, a relayout changes nothing: offsets, bit placement, groups, size, alignment, bit cursor |
| Agreement.RelayoutIdempotent | include/datadef.h:1620-1648 | a second relayout changes nothing, for every well-formed record, whatever its layout was before |
| Agreement.RunConsistent | include/datadef.h:1273-1607 | every operation of a run keeps a record equal to what replaying its recorded members would build |
| Agreement.OwnMemberAlignmentIsReplayed | include/datadef.h:1649-1660 | the shortcut by the tag's alignment always answers the alignment a replay would compute |
| Agreement.LatePackingIsEarlyPacking | include/datadef.h:1610-1648 | changing the packing after the body and laying out again gives the record that had it before its first member |
| Agreement.PackLastIsEarlyPacking | include/datadef.h:1661-1671 | `packed` on the member just added gives the record that had added it under a pack of 1 |
| Agreement.AlignFlattenedAgreesIff | include/datadef.h:1676-1697 | after an anonymous aggregate, aligned(N) survives a relayout if and only if it was ignored or asked for nothing new |
| Agreement.FlattenedAlignIsForgotten | include/datadef.h:1570-1609 | aligned(4) behind an anonymous one-byte block moves its member from 1 to 4, and a relayout undoes that |
| Agreement.RunAlike | include/datadef.h:1273-1697 | two runs of the same operations under any two configurations record the same declarations |
| ReplayedLayout.RelayoutOfConsistent | include/datadef.h:1620-1648 | a relayout is the identity if and only if the record is what its replay builds |
| ReplayedLayout.AddMemberKeeps | include/datadef.h:1273-1307 | adding a member to a record and to its replay keeps the two in agreement |
| ReplayedLayout.AddBitFieldKeeps | include/datadef.h:1313-1490 | adding any bit-field keeps record and replay in agreement, the bit cursor included |
| ReplayedLayout.AddAnonymousKeeps | include/datadef.h:1491-1530 | flattening an anonymous aggregate keeps record and replay in agreement |
| ReplayedLayout.AlignKeeps | include/datadef.h:1672-1697 | aligned(N) on an own member, given once or again, keeps record and replay in agreement |
| ReplayedLayout.PackKeeps | include/datadef.h:1661-1671 | `packed` on the last member keeps record and replay in agreement |
| ReplayedLayout.TagKeeps | include/datadef.h:1551-1556 | aligned(N) on the tag keeps record and replay in agreement |
| Placement.MembersNeverOverlap | include/datadef.h:1273-1550 | in every completed record every member lies inside it; of two members that are not alternatives of a union the earlier one ends at or before the bit where the later one starts; and every anonymous block, padding included, keeps apart from all other members and blocks, in declaration order |
| Placement.FlattenedStaysInBlock | include/datadef.h:1491-1530 | a flattened member sits in its block as it sat in its aggregate, inside the block, and the block inside the record |
| Placement.RunSound | include/datadef.h:1273-1530 | every run keeps order, separation and containment of members and anonymous blocks, and a power-of-two record alignment |
| Windows.LeastLegalBit | include/datadef.h:1356-1395 | a System V bit-field that may not straddle starts at the smallest bit at or after the cursor at which it stays in one window of its type, and its recorded unit is aligned and holds it |
| Windows.MicrosoftUnit | include/datadef.h:1331-1349 | a Microsoft bit-field continues the open unit exactly while the sizes agree and it fits; otherwise its unit starts on the first suitable byte and the record is aligned for it |
| Windows.BoundarySeparates | include/datadef.h:1441-1478 | after a `:0` the record goes on at the first boundary of the type, packed or not; a System V one asks for no alignment, a Microsoft one counts only after a bit-field; the next bit-field starts behind it |
| Windows.AccessStaysInside | include/datadef.h:1331-1423 | the whole storage unit of every Microsoft bit-field, and of every unpacked System V one of a type aligned to its unit, lies inside the completed record, at any depth of nesting |
| DeclaredTypes.MemberSuitsItsType | include/datadef.h:1273-1307 | a member starts on the first byte that suits the smaller of its type's alignment and the packing, 0 in a union, and the record is aligned for it |
| DeclaredTypes.BlockSuitsItsAggregate | include/datadef.h:1491-1530 | an anonymous block starts on the first byte that suits the smaller of its aggregate's alignment and the packing, and is noted with its first member and their number |
| DeclaredTypes.FlattenedKeepAttributes | include/datadef.h:1491-1530 | each flattened member keeps its own aligned(N) and `packed`, and the members before keep theirs |
| DeclaredTypes.ArrayTakesEveryElement | include/datadef.h:1273-1307 | a member takes its type's size times its count: each element lies in the record, and the next member starts behind the last one |
| DeclaredTypes.BytesOfOthers | include/datadef.h:1176-1183 | an empty class takes a byte an element, any other type without a size and a member of run-time size none |
| DeclaredTypes.ElementsNeverOverlap | include/datadef.h:1273-1550 | in the completed record, at any depth, every element of an array lies inside and before the members that follow |
| FieldUnits.RecordedAsItsType | include/datadef.h:1308-1490 | every bit-field's unit is its type's size, 4 bytes for a type without one and never over 8; width, signedness and order are recorded too |
| FieldUnits.LeastBitInTypesWindow | include/datadef.h:1356-1395 | a System V bit-field that may not straddle starts at the least bit from which it stays in one window of its type's size |
| FieldUnits.NextBitWhenStraddling | include/datadef.h:1362-1376 | one that may straddle takes the very next bit, recorded in its type's window where it stays in one and from the byte of its first bit where not |
| FieldUnits.FieldTakesItsBytes | include/datadef.h:1404-1412 | a System V bit-field makes the record just as large as the bytes its bits reach into |
| FieldUnits.CursorFollows | include/datadef.h:1366-1412 | the cursor then stands behind its last bit, and after any other member at the record's end |
| FieldUnits.MicrosoftUnitOfItsType | include/datadef.h:1331-1349 | a Microsoft bit-field joins the open unit exactly while that has its type's size and room; else it opens one on the first suitable byte |
| FieldUnits.BoundaryOfItsType | include/datadef.h:1441-1478 | where a `:0` sits, which boundary it makes under either ABI and packing, and what alignment it asks for |
| FieldUnits.ReversedBitNumber | include/datadef.h:1385-1391 | a reversed field's number, its place counted forward from the cursor and its width make up its unit |
| FieldUnits.OrderMirrors | include/datadef.h:1356-1391 | without straddling the storage order changes nothing but the bit number, which is mirrored in the unit |
| FieldUnits.FlipMirrors | include/datadef.h:1243-1265 | flipping a recorded field mirrors its bit number in its own unit and changes nothing else |
| FieldUnits.WholeUnitStaysInside | include/datadef.h:1331-1423 | at any depth the whole unit of a bit-field's own type's size lies in the completed record, for types of 1, 2, 4 and 8 bytes |
| Attributes.TagAligns | include/datadef.h:1551-1556 | aligned(N) on the tag leaves the record's and the tag's alignment the larger of N and what they were |
| Attributes.TagIsLargestAskedFor | include/datadef.h:1551-1556 | after any run the tag's alignment is the largest N that was given to it, and the record's is at least that |
| Attributes.TaggedRecord | include/datadef.h:1544-1556 | a completed record's alignment is at least every N given to its tag, and its size a multiple of it |
| Attributes.MemberAligns | include/datadef.h:1672-1697 | aligned(N) on the last member moves it to the first multiple of N exactly when N is larger than what it had, and the record grows by the move and is aligned for N |
| Attributes.PackedIsPackOfOne | include/datadef.h:1661-1671 | `packed` on the member just added gives what adding it with a pack of 1 in force gives |
| Attributes.PackedMemberTakesNextByte | include/datadef.h:1661-1671 | a packed member sits on the very next byte, takes its type's size times its count and raises no alignment |
| Attributes.PackedFieldTakesNextBit | include/datadef.h:1661-1671 | a packed bit-field raises no alignment and takes the very next bit, under the Microsoft rules the very next byte where it opens a unit |
| MemberAlignment.PlainMemberPlacedTightly | include/datadef.h:1273-1307 | a member takes the first suitable byte after the record so far, and the record ends where the member does; in a union all start at 0 |
| MemberAlignment.AnonymousPlacedTightly | include/datadef.h:1491-1530 | an anonymous block starts on the first byte its alignment under the packing allows, and the record ends where it does |
| MemberAlignment.CompletedSizeIsLeast | include/datadef.h:1531-1550 | completion yields the least multiple of the alignment that holds the record, in C++ an empty one is not 0, and an open bit-field run ends |
| RecordAlignment.AlignmentIsTheLargestAskedFor | include/datadef.h:1273-1556 | the record's alignment is exactly the largest of 1, the aligned(N) given to its tag, and what its members, bit-fields, anonymous blocks and their aligned(N) ask for |
| MemberAlignment.MembersAreAligned | include/datadef.h:1273-1550 | in every element of an array of a completed record every plain member, flattened ones at any depth included, sits on its type's alignment and its own aligned(N), each capped by its own packing and those of the records around it |
| Density.PackedSizeIsExact | include/datadef.h:1358-1383 | the size of a packed System V record is the bytes of its members plus each bit-field run's widths rounded up to bytes, computed without laying anything out |
| Density.PackedMembersTouch | include/datadef.h:1358-1423 | in the completed packed record a bit-field starts on the very bit where the own member before it ends, and any other member on the next whole byte |
| Reversal.SetReverseIdempotent | include/datadef.h:1243-1265 | asking twice for one order is asking once, every field ends in that order, and no forward bit position moves |
| Reversal.FlipBackRestoresIff | include/datadef.h:1243-1265 | flipping there and back restores a record if and only if all its bit-fields were in the record's own order |
| Reversal.LateOrderIsEarlyIff | include/datadef.h:1243-1265 | flipping a laid-out record to the other order, either one, gives the record declared in it from its first member on if and only if no own field is a `:0`, each packed System V field lies in one unit of its type (or, coming from reverse order, starts where the record before it ends), and each flattened field already has that order |
| Reversal.StraddlingFlipBreaks | include/datadef.h:1366-1395 | a packed 4-bit and 32-bit int flipped late put the second at bit offset -4 of unit 0, flagged early at 0 of unit 4 |
| Reversal.ZeroWidthFlipsDiffer | include/datadef.h:1446-1452 | a `:0` gets bit offset 32 from a late flip and 0 from an early flag |
| Translation.RelayoutTranslates | include/datadef.h:1620-1648 | laid out from any start that suits its declarations, a record has the relative layout and cursor it has from 0 |
| Starts.RelayoutFromIff | include/datadef.h:1610-1648 | laying a run out from any start leaves its relative layout as it is if and only if every own member and every anonymous block moves along with the start |
| Starts.BlockAlignmentIff | include/datadef.h:1610-1660 | at a multiple of the members' alignment, a replay changes nothing if and only if every own bit-field keeps its unit, which under the Microsoft rules only a `:0` behind a bit-field can fail to |
| Starts.UnitMovesIff | include/datadef.h:1369-1383 | a System V field's unit moves along with a start exactly when the start is a multiple of it, or the field straddles freely and is recorded from its own byte before and after |
| Translation.WideWindowReachesBefore | include/datadef.h:1617-1648 | a packed 4-bit int begun at byte 1 keeps its bit but is replayed into the unit one byte before the block |
| StructLayout.DataDefStruct.constructor | include/datadef.h:1213-1219 | a new record is the empty layout without packing, in agreement with its replay |
| StructLayout.DataDefStruct.AddMember | include/datadef.h:1273-1307 | the fields change as the layout function for a plain member says, the record ends behind the type's size times the count, and a record in agreement with its replay stays so |
| StructLayout.DataDefStruct.OpenUnit | include/datadef.h:1331-1349 | the Microsoft branch moves the cursor as the layout function says |
| StructLayout.DataDefStruct.OpenWindow | include/datadef.h:1350-1386 | the System V branch moves the cursor as the layout function says |
| StructLayout.DataDefStruct.AllocateBitField | include/datadef.h:1313-1423 | answers the placement at the opened cursor, in a unit of its type's size, and leaves the state with its bits taken |
| StructLayout.DataDefStruct.AddBitField | include/datadef.h:1424-1440 | the fields change as the layout function for a bit-field says, and agreement with the replay is kept |
| StructLayout.DataDefStruct.AddUnnamedBitField | include/datadef.h:1441-1490 | unnamed and `:0` fields change the state as the layout function says, under both ABIs, and keep agreement with the replay |
| StructLayout.DataDefStruct.AddAnonymousAggregate | include/datadef.h:1491-1530 | the member loop flattens the aggregate as the layout function says, attributes included, and keeps agreement with the replay |
| StructLayout.DataDefStruct.Finalize | include/datadef.h:1544-1550 | completion changes the state as the layout function says, and leaves the record fit to be laid out again |
| StructLayout.DataDefStruct.ApplyTagAlignment | include/datadef.h:1552-1556 | the state changes as the layout function says, both alignments are at least N, and agreement with the replay is kept |
| StructLayout.DataDefStruct.ApplyMemberAlignment | include/datadef.h:1676-1697 | the early returns and the move of the last member change the state as the layout function says, and keep agreement with the replay behind an own member |
| StructLayout.DataDefStruct.ReplayOwnMembers | include/datadef.h:1570-1609 | the replay loop leaves in the scratch record the fold of the recorded declarations, and maps each of its members to itself |
| StructLayout.DataDefStruct.Relayout | include/datadef.h:1620-1648 | the scratch layout comes back relative to the start, attributes and members untouched; from 0 it brings any record into agreement with its replay and leaves one that is as it was |
| StructLayout.DataDefStruct.OwnMemberAlignment | include/datadef.h:1652-1660 | answers the alignment whose meaning Agreement.OwnMemberAlignmentIsReplayed proves |
| StructLayout.DataDefStruct.ApplyMemberPacking | include/datadef.h:1666-1671 | the last member is recorded as packed once and the record laid out again, in agreement with its replay |
| StructLayout.DataDefStruct.SetReverseScalarStorage | include/datadef.h:1243-1265 | the loop flips every bit-field in its own unit and nothing else, and leaves the record fit to be laid out again |
| Wildcard.Wildcmp | include/doctest.h:6448-6480 | terminates, and answers true if and only if the pattern matches the string, for every string and pattern |
| Wildcard.MatchFromStar | include/doctest.h:6460-6479 | the backtracking loop decides whether the rest of the pattern matches the rest of the string |
| Wildcard.LatestStarSuffices | include/doctest.h:6461-6466 | forgetting an earlier star at a later one loses no match |
| Wildcard.NoRoomLeft | include/doctest.h:6476-6479 | when the string is used up inside a star-free stretch, no later restart could match |
| Wildcard.LiteralMatchesItself | include/doctest.h:6448-6480 | a pattern without `*` and `?` matches just the strings equal to it, but for the case of the 26 letters where case does not count |
| Wildcard.QuestionMarksCount | include/doctest.h:6448-6480 | a run of `?` matches just the strings of its length |
| Wildcard.PrefixStarSuffix | include/doctest.h:6448-6480 | text, a star and text match just the strings that begin with the one and end, behind it, with the other |
| DecisionTree.VisitThenAdvance | include/doctest.h:8749-8761 | the leaves left from a path on are the leaf below it, then the leaves left after advancing from that leaf |
| DecisionTree.LeavesIncrease | include/doctest.h:8749-8761 | the leaves in visiting order are strictly increasing lexicographically |
| DecisionTree.LeavesAreLeaves | include/doctest.h:8763-8809 | the listed paths are all the leaves and nothing else |
| Traversal.TraversalState.EnsureDecisionPointAtCurrentDepth | include/doctest.h:8721-8732 | a point, and a choice of 0, are added only where the depth has none |
| Traversal.TraversalState.ResetForTestCase | include/doctest.h:8734-8740 | everything is forgotten |
| Traversal.TraversalState.ResetForRun | include/doctest.h:8742-8747 | everything but the decision path is forgotten |
| Traversal.TraversalState.Advance | include/doctest.h:8749-8761 | moves on the deepest decision with a branch left and forgets those below, or answers that there is none |
| Traversal.TraversalState.TryEnterSubcase | include/doctest.h:8763-8785 | the sibling becomes known, and is entered exactly when its first occurrence is the chosen branch |
| Traversal.TraversalState.LeaveSubcase | include/doctest.h:8787-8791 | back to the depth at which the innermost subcase was entered |
| Traversal.TraversalState.AcquireGeneratorIndex | include/doctest.h:8802-8809 | the generator's count is noted on a new point and overwrites that of a known one, whose subcases stay; the chosen value is answered |
| Traversal.RanAbove | include/doctest.h:8763-8809 | a run of the chosen branch one level down is a run of the whole body, its branch counts noted |
| Traversal.RunBody | include/doctest.h:6077 | one run of a body reaches exactly the first leaf below the chosen path and notes the branch counts on the way |
| Traversal.RunSiblings | include/doctest.h:8763-8791 | offering all siblings in turn enters the chosen one only |
| Traversal.RunTestCase | include/doctest.h:6051-6102 | the rerun loop ends having reached every leaf of the decision tree exactly once, in lexicographic order |
| LaneCounter.MultiLaneAtomic.MyAtomic | include/doctest.h:4189-4194 | a thread gets a lane round-robin and keeps it |
| LaneCounter.MultiLaneAtomic.FetchAdd | include/doctest.h:4142-4144 | one atomic add to the thread's own lane; the total grows by the argument; the answer is that lane's old value, which is the old total if and only if the other lanes sum to 0 |
| LaneCounter.MultiLaneAtomic.Increment | include/doctest.h:4134-4136 | the total grows by 1; the answer is the new total if and only if the other lanes sum to 0 |
| LaneCounter.OwnLaneIsTotalIff | include/doctest.h:4134-4144 | one lane is the total if and only if the others sum to 0 |
| LaneCounter.TwoThreadsCount | include/doctest.h:4134-4160 | two threads count one each on a new counter: the second is answered 1 and the total is 2 |
| LaneCounter.IncrementAnswersItsLane | include/doctest.h:4134-4144 | the same as two atomic adds to idle lanes: the second thread's lane held 0 before its add and the total is 2 after it |
| LaneCounter.MultiLaneAtomic.Load | include/doctest.h:4154-4160 | one atomic read of each lane in turn; without concurrent steps the answer is the total |
| LaneCounter.MultiLaneAtomic.Store | include/doctest.h:4168-4174 | the total becomes the stored value |
| LaneCounter.TotalIsConserved | include/doctest.h:4142-4144 | under any interleaving the total is the initial one plus everything added |
| LoadBounds.LoadIsBetweenIff | include/doctest.h:4142-4160 | under any interleaving a load answers the total at its start and the adds it saw; it lies between the totals at start and end if and only if neither what it saw nor what it missed is negative |
| LoadBounds.AlwaysBoundedIff | include/doctest.h:4142-4160 | given each lane's adds, a load lies between those totals under every schedule if and only if no first part and no last part of any lane's adds sums to less than 0 |
| LoadBounds.LoadIsBetween | include/doctest.h:4154-4160 | a load among nonnegative adds answers between the totals at its start and at its end |
| LoadBounds.LoadOfIncrementsIsAMoment | include/doctest.h:4130-4160 | among increments the answer is the true total at some moment during the load |
| LoadBounds.SubtractionBreaksTheBound | include/doctest.h:4146-4160 | over all lanes, with one subtraction, a load answers 0 although every total was at least 1 |
| SmallString.String.Allocate | include/doctest.h:8100-8113 | room for the bytes and their terminator, in the buffer up to 23 bytes and on the heap beyond |
| SmallString.String.constructor | include/doctest.h:8142-8145 | the empty text, on the stack |
| SmallString.String.FromBytes | include/doctest.h:8155-8157 | holds exactly the given bytes, on the stack if and only if they are at most 23 |
| SmallString.String.CopyOf | include/doctest.h:8163-8165 | holds the other's bytes in memory of its own |
| SmallString.String.Assign | include/doctest.h:8167-8176 | holds the other's bytes, the other unchanged; itself assigned, it stays |
| SmallString.String.Append | include/doctest.h:8178-8226 | the content is the concatenation whichever branch is taken, the other unchanged |
| SmallString.String.MoveToHeap | include/doctest.h:8188-8201 | the bytes so far survive the switch to the heap view that overwrites them |
| SmallString.String.Grow | include/doctest.h:8207-8222 | the bytes so far survive into the larger block, the doubling's wrap included |
| SmallString.String.MoveFrom | include/doctest.h:8228-8232 | the bytes and the heap block pass over, and the source is a valid empty string sharing nothing |
| SmallString.String.MoveAssign | include/doctest.h:8234-8243 | as the move construction, and a string moved to itself stays |
| SmallString.String.Size | include/doctest.h:8258-8262 | the masked flag byte gives the number of bytes held |
| SmallString.String.CStr | include/doctest.h:955-968 | the bytes held and their terminator |
| SmallString.String.SubstrInPlace | include/doctest.h:8271-8277 | what is left is the stretch asked for, clipped at the end |
| SmallString.Concatenate | include/doctest.h:8321-8323 | a new string with the bytes of both, both unchanged |
| TypeArena.ArenaIsAMap | include/cir_arena.h:558-571 | after any writes, reading an id answers the last record written there, zeros for a gap, and nothing from the highest slot on |
| TypeArena.PresenceAndGaps | include/cir_arena.h:565-577 | a record is present exactly where the last write put a set kind; a never-written id reads exactly when a higher one was written |
| TypeArena.GapReadsAsZeros | include/cir_arena.h:558-571 | after one write to the second project id, the first one reads as a record of zeros |
| TypeArena.RunReadsBack | include/cir_arena.h:579-584 | every record of a run reads back by begin and index, whatever is appended later |
| TypeArena.WordRunReadsBack | include/cir_arena.h:593-599 | every word of a run appended below 2^32 reads back by begin and index, whatever is appended later |
| TypeArena.WordRunReadsBackIff | include/cir_arena.h:593-599 | a run's word is sure to read back, for all contents, if and only if it lies below 2^32 |
| TypeArena.DefArena.SetDefAt | include/cir_arena.h:558-564 | the block grows to the slot and takes the record there |
| TypeArena.DefArena.AddPayload | include/madcdis/pod_record.h:46-56 | the record's words are appended and their offset answered |
| TypeArena.DefArena.AddWord | include/cir_arena.h:593 | the word is appended and its offset answered |
| TypeArena.DefArena.AddTokbytes | include/cir_arena.h:586-591 | the bytes are appended and their offset answered |
| TypeArena.DefsInOrder | src/cir_freeze.cpp:1948-1960 | every live record is still there after laying the block out in another order, at the position noted for its slot |
| TypeArena.FrozenAnswersAsLive | include/cir_arena.h:644-665 | the frozen view answers every record and presence lookup as the live arena does, bound in slot order or permuted |
| TypeArena.FrozenPayloadAnswersAsLive | include/cir_arena.h:666-673 | the frozen view answers every payload lookup as the live arena does |
| TypeArena.FrozenWordAgreesIff | include/cir_arena.h:674-681 | the two word lookups agree if and only if the 32-bit sum does not wrap into the payload |
| TypeArena.WrappedLookupsDiffer | include/cir_arena.h:594-599 | with begin 2^32 - 1 and index 1 the live lookup answers word 0 and the frozen one nothing |
| TypeArena.Freeze | include/cir_arena.h:632-644 | bound to the dumped blocks, the records in any order, the frozen view answers every record, presence and payload lookup as the live arena |
| IntegerCast.CastIsTheValueInRange | include/datadef.h:963-984 | the answer is the one value of the target's range congruent to the input |
| IntegerCast.CastChangesNothingIff | include/datadef.h:963-984 | a cast leaves a value as it is if and only if there is no type, the type has another size such as 16 bytes, or the value is in its range |
| IntegerCast.CastIdempotent | include/datadef.h:963-984 | casting again changes nothing |
| IntegerCast.NarrowAbsorbsWide | include/datadef.h:963-984 | a cast absorbs an earlier one to a type at least as wide, of either signedness |
| IntegerCast.CarrierIsSigned128 | include/datadef.h:963-984 | the carrier holds the signed 128-bit value congruent to a result |
| IntegerCast.CastCommutesWithFolding | include/datadef.h:957-984 | sums and products folded in the wrapping carrier cast to the same value whether or not the operands were cast first |
| ConstantSlot.WidthFitsSlot | include/datatokens.h:242-309 | no type's slot is stored through a pointer wider than its block |
| ConstantSlot.SlotHoldsItsType | include/datatokens.h:286-309 | an integer type's slot makes of c the one value of the type's width and signedness congruent to it, a bool's 0 or 1; which types have a slot |
| ConstantSlot.SlotHoldsTheCast | include/datatokens.h:286-337 | an integer scalar's slot holds what the constant folder's cast to its type yields |
| ConstantSlot.EncodedByte | include/datatokens.h:311-337 | the bytes of a stored value, the lowest first |
| ConstantSlot.ImageHolds | include/datatokens.h:311-419 | the bytes a store writes read back as the value reduced to the slot's width and signedness |
| ConstantSlot.StepsCancelIff | include/datatokens.h:372-396 | a step and its opposite cancel in every integer slot; in a bool's from false exactly for a step of 0 or 1, and from true for any but 1 |
| ConstantSlot.RollbackRestoresIff | include/datatokens.h:261-272 | writing back what was read restores the slot's value if and only if it fits 64 bits |
| ConstantSlot.RollbackCutsWideValue | include/datatokens.h:261-272 | 2^64 in a 128-bit slot is 0 after a rollback |
| ConstantSlot.RollbackRestoresFloatIff | include/datatokens.h:261-272 | a rollback restores a floating-point slot's bytes if and only if they were the image of a whole number read off such a slot |
| ConstantSlot.RetypedValueIffNotNegativeUnsigned | include/datatokens.h:261-272 | a value whose 64-bit reading survives retyping survives itself unless it is negative and the new slot a wide unsigned one |
| ConstantSlot.RetypingTurnsMinusOne | include/datatokens.h:261-272 | -1 in an unsigned 64-bit slot reads as -1 and is 2^64 - 1 |
| ConstantSlot.Variable.constructor | include/datatokens.h:231-248 | the block is as wide as the slot, not as the type: 8 bytes for an int and an enum |
| ConstantSlot.Variable.Set | include/datatokens.h:311-337 | the slot holds the value of the variable's own type congruent to the given one, or its floating-point image, and a 64-bit read the signed 64-bit number congruent to that; no byte beyond the slot's width changes |
| ConstantSlot.Variable.Step | include/datatokens.h:372-394 | the slot holds the stepped value reduced, and no byte beyond its width changes |
| ConstantSlot.Variable.RetypeConstant | include/datatokens.h:261-272 | the 64-bit reading is unchanged whether it succeeds or rolls back, floating-point slots included; success is exactly that the slot exists, fits and keeps the reading; and an integer of 64 bits is kept in an integer slot if and only if it is not a negative one now in an unsigned slot of 64 or 128 bits |

## Left out

- Unsigned 64-bit overflow of sizes and offsets: layout numbers are unbounded; a wrap below 0 shows as a negative offset.
- `int24_t`, and every alignment or bit-field storage size that is no power of two: the rounding mask means nothing there.
- Inherited members, vptrs, bases, virtual bases and vtable groups: a class's own block is covered, the class around it is not.
- Empty anonymous aggregates: their flattening is modelled, but a replay does not know of them.
- Anonymous aggregates are values taken when they are added: a later change of the inner type is not modelled.
- Per-member array flags, dimensions, count expressions, access and typedef names: carried along, never read by the layout.
- The name-based signedness of a bit-field: its result is a property of the field's type here.
- `TraversalState`: unwinding after a failed test, repeated sibling names, and bodies that put subcases and generators at one depth.
- The rerun loop's reporters, exceptions, timers and its stop after too many failed assertions.
- `MultiLaneAtomic`: overflow of a lane, memory orders weaker than sequential consistency, and a store among concurrent adds; the lane counter is shared by all counters of a program.
- Traversal.RunTestCase: a body's choices depend on nothing but the traversal state.
- SmallString.String.Append: is about another string, because appending one to itself copies between overlapping ranges with `memcpy`, which has no defined result.
- `String`: reading from a stream, comparing and finding; releasing memory.
- Wildcard.Wildcmp: case folding is that of the C locale.
- SmallString.String.SetView: which buffer bytes the heap view overwrites is fixed at 16, its size with 8-byte pointers and 4-byte sizes.
- `DefArena` and `FrozenDefArena`: intern tables, lazily decoded blocks and token runs; every block is resident.
- TypeArena.DefsInOrder: offsets are 32-bit, and a payload past that width is not modelled.
- Floating-point conversions are parameters, `Floats`: of them just this is used, that images have their slot's width and that a whole number read off one, stored again, reads the same.
- Whether plain `char` is signed is a parameter of a variable; bytes are little-endian.
- The comparisons on a constant's slot, and everything else a variable carries.
