# react-native-duo-drag-drop: the reorder-and-layout engine, in Dafny

The widget shows a list of words. A word sits either in the *bank* or in the
*answer sentence*. Every word owns one mutable record (`Offset`) with the
fields `order`, `width`, `height`, `x`, `y`, `originalX` and `originalY`.
An `order` of -1 means the word is in the bank. Any other value is its rank
in the sentence. This project models the code that reads and writes those
records, and proves what it promises.

- `redash.dfy` (module `Redash`): the two helpers the widget takes from
  `react-native-redash`. Their source is not part of this model, so `move`
  and `between` are stated as definitions.
- `ranking.dfy` (module `Ranking`): the list that `filter(isNotInBank).sort(byOrder)`
  produces. It is the answered indices ordered by (order, index), because the
  sort is stable. This module also defines invariant I1 (`DenseRanks`): the
  answered words hold the ranks 0..k-1, each once.
- `layout.dfy` (module `Layout`), for src/Layout.ts:
  - the records as a `datatype Offset` held in an `array<Offset>`;
  - `lastOrder`;
  - `remove` and `reorder` as in-place methods (`Remove`, `Reorder`,
    `Rerank`), proved against the functions `Removed` and `Reordered`;
  - `calculateLayout` as the loop `CalculateLayout`, proved against
    `LaidOut`, plus the lemmas about the line packing.
- `sortable_word.dfy` (module `Sortable`), for src/SortableWord.tsx: one word
  as a class. It holds the flags `isGestureActive` and `isAnimating`, the
  translation and the gesture context, with one method per event:
  - the pan gesture's `onStart`, `onActive` and `onEnd`;
  - the tap, and the tap's deferred layout;
  - the end of the settle animation.

  The arguments the word passes to `calculateLayout` are a field of the
  class. They are either the arguments as written or the corrected ones
  (see Findings). They decide where words are drawn and, because the hit
  test reads those positions, also which `reorder` a drag fires
  (`Sortable.AsWrittenDragReranks`). Every lemma about ranks is stated for
  any layout arguments.
- `duo_drag_drop.dfy` (module `Duo`), for src/DuoDragDrop.tsx:
  - the derived sizes;
  - the measurement pass of `ComputeWordLayout`, as a class that fills the
    measured rectangles and seeds the records;
  - the imperative handle (`getWords`, `getAnsweredWords`, `getOffsets`,
    `setOffsets`), as a class over the records.
- `wrappers.dfy`: an `Option` type.

Throughout, "the sentence" is `Sentence(s)`: the answered indices ordered by
(order, index).

## Model

| member | source | states |
|---|---|---|
| Redash.MoveIsPermutation | src/Layout.ts:48 | `move` keeps the length and the multiset of elements |
| Redash.MoveLands | src/Layout.ts:48 | the element taken at `from` ends up at `to` |
| Redash.MoveKeepsRelativeOrder | src/Layout.ts:48 | two elements other than the moved one keep their relative order, in both directions |
| Redash.MoveKeepsOthers | src/Layout.ts:48 | taking the moved element out of the result gives the input without it |
| Redash.MoveKeepsDistinct | src/Layout.ts:48 | `move` introduces no duplicate |
| Redash.MoveInPlace | src/Layout.ts:48 | moving an element to its own position changes nothing |
| Redash.MoveWraps | src/Layout.ts:48 | a negative index means that many places from the end |
| Redash.MoveExample | src/Layout.ts:48 | moving position 0 of four to position 2 shifts the next two down by one |
| Redash.Between | src/SortableWord.tsx:88-89 | inclusive, the result is true exactly when lo <= v <= hi, endpoints included; not inclusive, exactly when lo < v < hi |
| Ranking.CandidatesMembers | src/Layout.ts:35-37 | the two filters keep exactly the answered indices other than `index` |
| Ranking.CandidatesIncreasing | src/Layout.ts:35-37 | the filters keep index order |
| Ranking.SortSorted | src/Layout.ts:23-26 | the stable sort by `byOrder` of an index-ordered list is ordered by (order, index) |
| Ranking.RankedFacts | src/Layout.ts:35-38 | the sorted list has each answered index other than `index` exactly once, in (order, index) order, and nothing else |
| Ranking.CountIsAnswered | src/Layout.ts:28-31 | the count of the filter is the number of answered indices |
| Ranking.DenseRankedAt | src/Layout.ts:47 | under I1, the word at position r of the sentence has order r, and the sentence holds every answered word |
| Ranking.RankedAtDense | src/Layout.ts:47 | conversely, if every position r of the sentence holds order r, then I1 holds |
| Ranking.SentenceDeterminesOrders | src/Layout.ts:47 | two order columns with I1, the same bank and the same sentence are equal |
| Ranking.AppendDense | src/SortableWord.tsx:71 | giving a bank word the order `lastOrder` keeps I1 and adds one answered word |
| Ranking.AppendSentence | src/SortableWord.tsx:71 | ... and appends that word to the end of the sentence |
| Ranking.DenseSentenceUnique | src/Layout.ts:47 | under I1, the sentence is the one list whose position r holds order r |
| Layout.Orders | src/DuoDragDrop.tsx:151 | the order column, one entry per record |
| Layout.LastOrderCounts | src/Layout.ts:28-31 | `lastOrder` is the number of records whose order is not -1 |
| Layout.AppendKeepsDense | src/Layout.ts:28-31 | under I1, a bank word given order `lastOrder` raises the count by one, keeps I1, and joins the sentence at its end |
| Layout.Rerank | src/Layout.ts:40-42 | the loop `order = i` over a list of distinct indices sets each listed record's order to its position and leaves every other record as it was |
| Layout.RerankSentence | src/Layout.ts:40-42 | re-ranking the answered words in any order keeps the bank and the count, gives I1, and makes that order the sentence |
| Layout.Remove | src/Layout.ts:33-43 | the method leaves the array equal to `Removed` of the old records |
| Layout.RemoveDense | src/Layout.ts:33-43 | after `remove`, the bank is unchanged, the count is unchanged, I1 holds, and the sentence is the old one without `index` |
| Layout.RemoveKeepsRelativeOrder | src/Layout.ts:33-43 | after `remove`, two answered words compare by new order exactly as they compared by (order, index) before |
| Layout.RemoveFrame | src/Layout.ts:33-43 | `remove` writes only `order`, and leaves unchanged the record at `index` and every bank record |
| Layout.RemoveBankWordIsIdentity | src/Layout.ts:33-43 | under I1, removing a bank word changes nothing |
| Layout.AppendThenRemoveRoundTrip | src/Layout.ts:28-43 | appending a bank word at `lastOrder`, then setting it to -1 and calling `remove`, restores every record |
| Layout.Reorder | src/Layout.ts:45-52 | the method leaves the array equal to `Reordered` of the old records |
| Layout.ReorderSentence | src/Layout.ts:45-52 | after `reorder`, I1 holds, the count is unchanged, the sentence is `move` of the old sentence, bank records are untouched, and only `order` is written |
| Layout.DenseOrderIsPosition | src/Layout.ts:47 | under I1, an answered word's order is its position in the sentence |
| Layout.ReorderLands | src/Layout.ts:45-52 | under I1, the word of rank `from` gets rank `to` |
| Layout.ReorderKeepsOthers | src/Layout.ts:45-52 | under I1, every other pair of answered words keeps its relative order, in both directions |
| Layout.ReorderInPlace | src/Layout.ts:45-52 | under I1, `reorder(i, i)` changes nothing |
| Layout.ReorderExample | src/Layout.ts:45-52 | four words of orders 0..3: `reorder(0, 2)` gives the orders 2, 0, 1, 3 |
| Layout.SumRun | src/Layout.ts:71 | the `reduce` sums width plus half a gap over the run from `lineBreak` to `i` |
| Layout.CalculateLayout | src/Layout.ts:54-82 | the method leaves the array equal to `LaidOut` of the old records for its arguments |
| Layout.PlaceAll | src/Layout.ts:68-81 | the loop places the words rank by rank, leaving every record as `Placed` over the whole sentence |
| Layout.PlaceNext | src/Layout.ts:69-81 | one loop step advances the cursor `(lineNumber, lineBreak)` and places exactly the word of that rank |
| Layout.LaidOutFrame | src/Layout.ts:54-82 | `calculateLayout` writes only `x` and `y`, only of answered records, and leaves orders and sentence unchanged |
| Layout.NoAnsweredNoLayout | src/Layout.ts:64-66 | with no answered word, nothing changes |
| Layout.LayoutIdempotent | src/Layout.ts:54-82 | laying out twice with the same arguments is laying out once |
| Layout.LaidOutByOrder | src/Layout.ts:62-81 | under I1, the word of order k is placed as the k-th word of the pass |
| Layout.LineStep | src/Layout.ts:72-75 | each word's line is the previous word's line, or the next one; a word starts a line exactly when the line break moves to it |
| Layout.LinesMonotone | src/Layout.ts:68-80 | line numbers never decrease along the sentence and grow by at most one per word |
| Layout.YSteps | src/Layout.ts:80 | each word's `y` equals the previous word's `y`, or that `y` plus `wordHeight + lineGap` |
| Layout.FirstWord | src/Layout.ts:70-76 | left to right, the first word is at x = 0, and it is already on line 1 when it is wider than the container |
| Layout.LtrX | src/Layout.ts:71-78 | left to right, a word's x is the run width of the earlier words on its line |
| Layout.NextWordLtr | src/Layout.ts:71-78 | left to right, a word starts a new line exactly when it would cross the right edge after the previous word plus half a gap. It then sits at 0; otherwise it sits half a gap after the previous word |
| Layout.FitsUnlessFirst | src/Layout.ts:72-78 | left to right, a word that does not start a line ends within the container |
| Layout.WithinContainer | src/Layout.ts:72-78 | with gaps >= 0 and every word no wider than the container, every word lies within the container, in either direction |
| Layout.CursorIgnoresRtl | src/Layout.ts:68-75 | the line breaks do not depend on `rtl` |
| Layout.RtlMirrors | src/Layout.ts:76-80 | right to left gives the same lines and `y`, and x = containerWidth - x_ltr - width |
| Layout.LoneWordLaidOut | src/Layout.ts:54-82 | a single answered word that fits goes to x = 0, or to the right edge with `rtl`, and to y = lineGap / 2 |
| Layout.LayoutExample | src/Layout.ts:54-82 | four words 50 wide in a 110 container with gap 4 and line gap 9: two lines of two, at x 0 and 52, y 4.5 and 58.5 |
| Sortable.AsWrittenGestureGeometry | src/SortableWord.tsx:72 | the calls as written pass a line gap of 0 or 1 and no mirroring |
| Sortable.AsWrittenLayoutMisplaces | src/SortableWord.tsx:72 | as written, a lone word is placed elsewhere than by the orchestrator's arguments. With `rtl` it gets x 0 instead of 250; without `rtl` it gets y 0 instead of 4.5 |
| Sortable.AsWrittenPromoteMisplaces | src/SortableWord.tsx:70-72 | a lone bank word 50 wide, promoted in a right-to-left container 300 wide, lands at x 0, y 0.5 with the arguments as written, and at x 250, y 4.5 with the corrected ones |
| Sortable.AsWrittenDragReranks | src/SortableWord.tsx:70-93 | the layout arguments decide which `reorder` fires: a bank word dragged to (25, 10) beside one answered word swaps ranks with it as written (orders become 0, 1) and hits nothing when corrected (orders stay 1, 0) |
| Sortable.GestureLayoutIsStable | src/DuoDragDrop.tsx:159 | with the line gap and `rtl` in their own slots, the corrected gesture layout is a fixed point of the orchestrator's `calculateLayout` for the same props, so the orchestrator laying the records out again with those props moves no word the gesture placed |
| Sortable.FirstHitIsFirst | src/SortableWord.tsx:79-96 | the hit test returns the lowest index hit, and every lower index misses; or it returns none, and every index misses |
| Sortable.FindHit | src/SortableWord.tsx:79-91 | the loop with its `continue` and `break` returns that first hit |
| Sortable.HitInRange | src/SortableWord.tsx:92 | under I1, the ranks a hit hands to `reorder` lie in the range `move` accepts |
| Sortable.RestingIsHitBox | src/SortableWord.tsx:84-90 | a probe at the middle of the top edge of a record's resting box hits that record |
| Sortable.ZoneChangedKeepsDense | src/SortableWord.tsx:70-77 | the promote or demote step keeps I1 |
| Sortable.PromoteAppends | src/SortableWord.tsx:70-72 | a bank word dragged above `linesHeight` joins the end of the sentence, and the count grows by one |
| Sortable.DemoteRemoves | src/SortableWord.tsx:73-76 | a sentence word dragged below `linesHeight - wordHeight/2` returns to the bank, and the sentence closes over it |
| Sortable.NoZoneChange | src/SortableWord.tsx:70-77 | between the two thresholds, nothing changes |
| Sortable.HitReorderedKeepsDense | src/SortableWord.tsx:79-96 | the reorder step keeps I1 and the bank |
| Sortable.DraggedKeepsDense | src/SortableWord.tsx:65-97 | one whole `onActive` update keeps I1 |
| Sortable.DropOnWordTakesItsRank | src/SortableWord.tsx:88-92 | a sentence word dropped on another sentence word takes that word's rank |
| Sortable.TapKeepsDense | src/SortableWord.tsx:150-156 | a tap keeps I1 and moves the word to the other zone |
| Sortable.TapAppends | src/SortableWord.tsx:151-152 | tapping a bank word appends it to the sentence |
| Sortable.TapTwiceRestores | src/SortableWord.tsx:150-156 | tapping a bank word twice restores every record |
| Sortable.SortableWord.constructor | src/SortableWord.tsx:43-46 | a word over records that keep I1 starts idle, with no animation and translation (0, 0), and `Valid()` holds; its layout arguments are the as-written or the corrected ones |
| Sortable.SortableWord.OnStart | src/SortableWord.tsx:50-64 | while animating, it changes nothing. Otherwise the translation and the context become the resting place: (originalX, originalY + wordBankOffsetY) for a bank word, (x, y) otherwise |
| Sortable.SortableWord.OnActive | src/SortableWord.tsx:65-97 | the gesture becomes active, the translation is the context plus the delta and is what is shown, and the records become `Dragged` of the old ones under the word's layout arguments; I1 is kept |
| Sortable.SortableWord.ChangeZone | src/SortableWord.tsx:70-77 | the records become `ZoneChanged` of the old ones under the word's layout arguments; I1 is kept |
| Sortable.SortableWord.ReorderOnHit | src/SortableWord.tsx:79-96 | the records become `HitReordered` of the old ones under the word's layout arguments; I1 is kept |
| Sortable.SortableWord.Relayout | src/SortableWord.tsx:72 | the records become `LaidOut` of the old ones for the word's layout arguments, and every order stays as it was |
| Sortable.SortableWord.OnEnd | src/SortableWord.tsx:98-127 | animation on, gesture off, translation set to the record's (x, y); what is shown (`translateX`, `translateY`) now heads for the resting place, which for a sentence word is exactly that translation |
| Sortable.SortableWord.OnTap | src/SortableWord.tsx:150-158 | the records become `Tapped` of the old ones, animation on, one layout scheduled; it does not check `isAnimating` |
| Sortable.SortableWord.TapLayout | src/SortableWord.tsx:159-163 | the deferred step lays the records out with the word's layout arguments, keeps I1, and moves the translation to the word's new (x, y) |
| Sortable.SortableWord.SettleFinished | src/SortableWord.tsx:106-127 | the settle animation's completion clears `isAnimating` and nothing else |
| Duo.DefaultLineGap | src/DuoDragDrop.tsx:93-94 | with `lineHeight` absent or 0, the line gap is wordHeight / 5 |
| Duo.IdealNumLinesBounds | src/DuoDragDrop.tsx:209 | the ideal line count is at least 1 and is the count or one more, unchanged exactly from 3 lines on |
| Duo.ContainerFallbackIsDead | src/DuoDragDrop.tsx:210 | the `\|\| lineHeight` fallback never changes the result |
| Duo.SeededAllInBank | src/DuoDragDrop.tsx:299-306 | once every word is seeded, every word is in the bank: count 0, I1, empty sentence |
| Duo.AllMeasured | src/DuoDragDrop.tsx:291 | a map of n keys below n holds every index below n |
| Duo.PlaceholderUnderRestingWord | src/DuoDragDrop.tsx:304-312 | a seeded word's resting place is the placeholder's top-left corner shifted left by one gap, and its width is the placeholder's plus two gaps |
| Duo.RestingBankWordStays | src/DuoDragDrop.tsx:305 | a seeded bank word held at its resting `y` is not promoted by `onActive` |
| Duo.ComputeWordLayout.constructor | src/DuoDragDrop.tsx:287-289 | the measurement pass starts with no rectangle and no placeholder |
| Duo.ComputeWordLayout.OnChildLayout | src/DuoDragDrop.tsx:287-318 | records the rectangle. It reports a line count exactly when every child is measured, and then that count is the number of distinct rows, every record is seeded and every placeholder is written; before that nothing else changes |
| Duo.ComputeWordLayout.CountRows | src/DuoDragDrop.tsx:292-296 | the loop counts the distinct measured `y` values |
| Duo.ComputeWordLayout.Seed | src/DuoDragDrop.tsx:299-314 | the loop seeds every record and writes every placeholder |
| Duo.DuoDragDrop.constructor | src/DuoDragDrop.tsx:93-116 | one record per word, every field 0, and `lineHeight` as derived |
| Duo.DuoDragDrop.WordProps | src/DuoDragDrop.tsx:224-235 | with the corrected arguments, the props each word receives make its gesture layout the container's layout |
| Duo.DuoDragDrop.GetWords | src/DuoDragDrop.tsx:119-135 | `answered` is the sentence's words and `bank` is the bank words in index order |
| Duo.BankSortIsIdentity | src/DuoDragDrop.tsx:133 | sorting the bank list by order changes nothing, because the sort is stable |
| Duo.WordsPermutation | src/DuoDragDrop.tsx:119-135 | `answered ++ bank` is a permutation of the words |
| Duo.DuoDragDrop.GetAnsweredWords | src/DuoDragDrop.tsx:137-148 | the words of the sentence, in sentence order |
| Duo.AnsweredCount | src/DuoDragDrop.tsx:137-148 | it has one word per answered record |
| Duo.AnsweredByOrder | src/DuoDragDrop.tsx:137-148 | under I1, its k-th word is the word whose order is k |
| Duo.HandleExample | src/DuoDragDrop.tsx:119-135 | for orders 1, -1, 0, 2: answered foo hello bar, bank world |
| Duo.DuoDragDrop.GetOffsets | src/DuoDragDrop.tsx:150-152 | the order column |
| Duo.DuoDragDrop.SetOffsets | src/DuoDragDrop.tsx:154-161 | writes `order[i] := a[i]` for every i < \|a\| with no validation, then lays out with the container's arguments; an `a` longer than the records fails after its writes, and nothing is laid out |
| Duo.GetThenSet | src/DuoDragDrop.tsx:150-158 | setting the orders that `getOffsets` returned changes no order; only the layout runs again |
| Duo.SetThenGet | src/DuoDragDrop.tsx:150-159 | `getOffsets` after `setOffsets(a)` of the right length returns `a` |
| Duo.SetDenseKeepsDense | src/DuoDragDrop.tsx:154-159 | `setOffsets(a)` with one order per word leaves I1 holding when `a` has dense ranks, and the sentence is then the one `a` ranks |
| Duo.SetOffsetsMayBreakDense | src/DuoDragDrop.tsx:154-159 | `setOffsets` validates nothing: orders 5 and -1 on two words break I1 |

## Left out

- Rendering, styles, z-index, `Word`, `Lines` and `Placeholder`: presentation only.
- Timing and threads:
  - Animation timing (`withTiming`, 250 ms) and the 16 ms `setTimeout`s.
    Each deferred step is its own method: `TapLayout`, `SettleFinished`,
    the seeding inside `OnChildLayout`, and the body of `SetOffsets`.
  - `scheduleOnUI`, and the cross-thread behaviour of shared values.
  - Event dispatch by the gesture libraries. Handlers are method calls
    given their deltas.
- Host layout measurement is not modelled. Measured rectangles and
  `containerWidth` are inputs.
- Reporting `numLines` and the placeholder styles to the parent
  (`setLayout`, `onReady`) is not modelled, and neither is the
  `initialized` switch between the measurement pass and the widget.
- The `useEffect` at src/DuoDragDrop.tsx:167-175, which lays out again when
  `rtl` changes: it is one `calculateLayout` call with the new `rtl`.
  `Layout.CursorIgnoresRtl` and `Layout.RtlMirrors` state what it does: the
  lines and y stay, and every answered word's x is mirrored.
- `onDrop` is passed to each word but never read there, so it has no
  behaviour to model.
- Number semantics:
  - Geometry is exact `real` arithmetic. Floating point rounding, NaN
    and `wordHeight * 1.2` rounding are left out.
  - `order` is an unbounded `int`.
- `move` and `between` are stated as definitions, because the
  `react-native-redash` source is not part of this model.
- Layout.Reorder requires the ranks to lie in the range `move` accepts.
  What `move` does outside that range is not known here.
- Sortable.SortableWord.OnActive, ChangeZone, ReorderOnHit, OnTap and
  TapLayout require I1 (`Valid`), and Sortable.SortableWord.constructor requires the
  records to keep it. The source checks neither. Seeding establishes I1
  (`SeededAllInBank`) and every gesture and tap keeps it (the
  `...KeepsDense` lemmas). `setOffsets` does not: it writes whatever
  orders it is given (`Duo.SetOffsetsMayBreakDense`), so keeping I1 across
  it is the caller's duty (`Duo.SetDenseKeepsDense`). Without I1,
  `reorder` could pass `move` ranks out of range.
- Sortable.SortableWord.constructor starts the gesture context at (0, 0).
  In the source, a first gesture that begins during an animation reads a
  context that was never set.
- Duo.DuoDragDrop.SetOffsets: when `a` is longer than the records, the
  source throws at the first missing record, after its writes. Here that
  is the result `ok == false`.
- Duo.DuoDragDrop.constructor does not model the default props
  (`wordGap = 4`, `wordBankOffsetY = 20`, `wordHeight = 45`). They are
  plain parameters.
- Sortable.SortableWord.constructor takes the layout arguments as a
  parameter: `Sortable.AsWrittenGestureGeometry(props)` runs the handlers as
  written, `Sortable.GestureGeometry(props)` runs them corrected; see
  Findings.
- `wordBankHeight` (src/DuoDragDrop.tsx:212) only sets a minimum height on
  an empty view. It feeds no record, so it is not modelled.

## Findings

| source | as written | input that shows it | evidently intended | confidence | as-written member | corrected member |
|---|---|---|---|---|---|---|
| src/SortableWord.tsx:72,76,93,160 | `calculateLayout(offsets, containerWidth, wordHeight, wordGap, rtl)` puts `rtl` in the `lineGap` slot of src/Layout.ts:54-61 and leaves `rtl` at `false`. The orchestrator hands each word `lineGap` (src/DuoDragDrop.tsx:231), and the word never reads it | one answered word 50 wide; container 300, wordHeight 45, wordGap 4, lineGap 9. With `rtl` the gesture layout puts it at x 0 and the orchestrator's at x 250. Without `rtl` they put it at y 0 and y 4.5. A bank word promoted by a drag with `rtl` lands at x 0, y 0.5 instead of x 250, y 4.5. The positions feed the hit test, so the call as written also changes which `reorder` fires: a bank word dragged to (25, 10) beside one answered word swaps ranks with it as written and hits nothing when corrected | `calculateLayout(offsets, containerWidth, wordHeight, wordGap, lineGap, rtl)`, as src/DuoDragDrop.tsx:159,170 call it | medium, not executed | Sortable.AsWrittenDragReranks | Sortable.GestureLayoutIsStable |
