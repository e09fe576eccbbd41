/** src/SortableWord.tsx: one draggable, tappable word.

    The component keeps a few shared values of its own (`isGestureActive`,
    `isAnimating`, the `translation` vector) and the gesture context `ctx`,
    and it reads and writes the records every word shares. Here it is a class
    whose fields are those values, with one method per event the component
    reacts to: the pan gesture's `onStart`, `onActive` and `onEnd`, the tap,
    the tap's deferred layout, and the end of the settle animation.

    Every call to `calculateLayout` in src/SortableWord.tsx passes `rtl`
    where the signature expects `lineGap` and leaves `rtl` at its default
    (`AsWrittenGestureGeometry`: a line gap of 1 or 0 and no mirroring). The
    orchestrator hands each word its `lineGap` as a prop, and its own calls
    pass `lineGap, rtl` (`GestureGeometry`). The layout arguments are
    therefore a parameter of the functions below and a field of the class:
    a word built with `AsWrittenGestureGeometry(props)` runs the handlers as
    written, one built with `GestureGeometry(props)` runs them corrected, and
    `AsWrittenLayoutMisplaces`, `AsWrittenPromoteMisplaces` and
    `AsWrittenDragReranks` show where the two part ways. The positions they
    write feed the hit test, so the layout arguments decide which `reorder`
    fires, not only where words are drawn; every lemma about ranks below is
    stated for every layout arguments `g`. */
module Sortable {
  import opened Wrappers
  import opened Redash
  import opened Ranking
  import opened Layout

  /** The props a word uses besides the records and its index. */
  datatype Props = Props(
    containerWidth: real,
    rtl: bool,
    linesHeight: real,
    wordHeight: real,
    wordGap: real,
    lineGap: real,
    wordBankOffsetY: real)

  /** The arguments `calculateLayout(offsets, containerWidth, wordHeight,
      wordGap, rtl)` receives as written: `rtl` coerced to a number as
      `lineGap`, and `rtl` itself left false. */
  function AsWrittenGestureGeometry(p: Props): (g: Geometry)
    ensures g.lineGap == 0.0 || g.lineGap == 1.0
    ensures !g.rtl
    ensures g.containerWidth == p.containerWidth && g.wordHeight == p.wordHeight && g.wordGap == p.wordGap
  {
    Geometry(p.containerWidth, p.wordHeight, p.wordGap, if p.rtl then 1.0 else 0.0, false)
  }

  /** The geometry the gesture handlers lay out with: the line gap and the
      direction the orchestrator hands down, as its own calls pass them. */
  function GestureGeometry(p: Props): Geometry {
    Geometry(p.containerWidth, p.wordHeight, p.wordGap, p.lineGap, p.rtl)
  }

  /** The calls as written put a lone answered word elsewhere than the
      orchestrator does for the same props: with `rtl` the word stays at the
      left edge instead of the right one, and without it the line gap is 0
      instead of the prop's, so the word sits half a gap too high. */
  lemma AsWrittenLayoutMisplaces()
    ensures var s := [Offset(0, 45.0, 50.0, 0.0, 0.0, 0.0, 0.0)];
            var p := Props(300.0, true, 108.0, 45.0, 4.0, 9.0, 0.0);
      && LaidOut(s, AsWrittenGestureGeometry(p))[0].x == 0.0
      && LaidOut(s, GestureGeometry(p))[0].x == 250.0
      && LaidOut(s, AsWrittenGestureGeometry(p.(rtl := false)))[0].y == 0.0
      && LaidOut(s, GestureGeometry(p.(rtl := false)))[0].y == 4.5
  {
    var s := [Offset(0, 45.0, 50.0, 0.0, 0.0, 0.0, 0.0)];
    var p := Props(300.0, true, 108.0, 45.0, 4.0, 9.0, 0.0);
    LoneWordLaidOut(s, AsWrittenGestureGeometry(p));
    LoneWordLaidOut(s, GestureGeometry(p));
    LoneWordLaidOut(s, AsWrittenGestureGeometry(p.(rtl := false)));
    LoneWordLaidOut(s, GestureGeometry(p.(rtl := false)));
  }

  /** The same divergence through a whole promote: a lone bank word 50 wide,
      dragged above the lines of a right-to-left container 300 wide, lands
      at the left edge and at y 0.5 as written, and at the right edge and
      half the line gap down when corrected. */
  lemma AsWrittenPromoteMisplaces(y: real)
    requires y < 108.0
    ensures var s := [Offset(-1, 45.0, 50.0, 0.0, 0.0, 0.0, 0.0)];
            var p := Props(300.0, true, 108.0, 45.0, 4.0, 9.0, 0.0);
      && ZoneChanged(s, 0, y, p, AsWrittenGestureGeometry(p))[0].x == 0.0
      && ZoneChanged(s, 0, y, p, AsWrittenGestureGeometry(p))[0].y == 0.5
      && ZoneChanged(s, 0, y, p, GestureGeometry(p))[0].x == 250.0
      && ZoneChanged(s, 0, y, p, GestureGeometry(p))[0].y == 4.5
  {
    var s := [Offset(-1, 45.0, 50.0, 0.0, 0.0, 0.0, 0.0)];
    var p := Props(300.0, true, 108.0, 45.0, 4.0, 9.0, 0.0);
    assert Orders(s) == [-1];
    CountIsAnswered([-1]);
    assert AnsweredSet([-1]) == {};
    var s' := s[0 := s[0].(order := LastOrder(s))];
    assert s' == [Offset(0, 45.0, 50.0, 0.0, 0.0, 0.0, 0.0)];
    LoneWordLaidOut(s', AsWrittenGestureGeometry(p));
    LoneWordLaidOut(s', GestureGeometry(p));
  }

  /** The layout arguments also decide which `reorder` fires. A bank word
      (record 0) is dragged to (25, 10) over a right-to-left container 300
      wide whose one answered word is record 1. The promote lays record 1
      out first; as written it lands at x 0, the probe hits it and the two
      swap ranks; corrected it lands at x 250 and nothing is hit. */
  lemma AsWrittenDragReranks()
    ensures var s := [Offset(-1, 45.0, 50.0, 0.0, 0.0, 0.0, 0.0), Offset(0, 45.0, 50.0, 0.0, 0.0, 0.0, 0.0)];
            var p := Props(300.0, true, 108.0, 45.0, 4.0, 9.0, 0.0);
      && DenseRanks(Orders(s))
      && Orders(Dragged(s, 0, 25.0, 10.0, p, AsWrittenGestureGeometry(p))) == [0, 1]
      && Orders(Dragged(s, 0, 25.0, 10.0, p, GestureGeometry(p))) == [1, 0]
  {
    var s := [Offset(-1, 45.0, 50.0, 0.0, 0.0, 0.0, 0.0), Offset(0, 45.0, 50.0, 0.0, 0.0, 0.0, 0.0)];
    var p := Props(300.0, true, 108.0, 45.0, 4.0, 9.0, 0.0);
    var s' := [Offset(1, 45.0, 50.0, 0.0, 0.0, 0.0, 0.0), Offset(0, 45.0, 50.0, 0.0, 0.0, 0.0, 0.0)];
    PromotedPair(s, s', p);
    DragOverPair(s, s', p, AsWrittenGestureGeometry(p));
    DragOverPair(s, s', p, GestureGeometry(p));
  }

  /** The promote step of the drag above: record 0 takes rank 1. */
  lemma PromotedPair(s: seq<Offset>, s': seq<Offset>, p: Props)
    requires |s| == 2 && s[0].order == InBank && s[1].order == 0
    requires s' == s[0 := s[0].(order := 1)] && 10.0 < p.linesHeight
    ensures DenseRanks(Orders(s))
    ensures forall g :: ZoneChanged(s, 0, 10.0, p, g) == LaidOut(s', g)
  {
    var os := Orders(s);
    assert os == [-1, 0];
    assert Candidates(os, InBank, 1) == [];
    assert Candidates(os, InBank, 2) == [1];
    assert DenseRanks(os);
  }

  /** Two records, record 1 ranked before record 0. */
  lemma SwappedPair(s: seq<Offset>)
    requires |s| == 2 && s[0].order == 1 && s[1].order == 0
    ensures DenseRanks(Orders(s)) && LastOrder(s) == 2 && Sentence(s) == [1, 0]
  {
    var os := Orders(s);
    assert os == [1, 0];
    assert Candidates(os, InBank, 1) == [0];
    assert Candidates(os, InBank, 2) == [0, 1];
    assert DenseRanks(os);
    DenseSentenceUnique(os, [1, 0]);
  }

  /** Record 1, ranked first, is laid out as the first word. */
  lemma PairFirstPlaced(s': seq<Offset>, g: Geometry)
    requires |s'| == 2 && s'[0].order == 1 && s'[1].order == 0 && s'[1].width <= g.containerWidth
    ensures DenseRanks(Orders(LaidOut(s', g))) && Orders(LaidOut(s', g)) == Orders(s')
    ensures LaidOut(s', g)[1].x == (if g.rtl then g.containerWidth - s'[1].width else 0.0)
    ensures LaidOut(s', g)[1].y == g.lineGap / 2.0
  {
    SwappedPair(s');
    LaidOutFrame(s', g);
    LaidOutByOrder(s', g, 1);
    var ws := Widths(s', [1, 0]);
    assert ws[0] == s'[1].width;
    FirstWordPlace(ws, g);
  }

  /** The reorder step of the drag above, for either layout arguments. */
  lemma DragOverPair(s: seq<Offset>, s': seq<Offset>, p: Props, g: Geometry)
    requires |s| == 2 && |s'| == 2 && s'[0].order == 1 && s'[1].order == 0 && s'[1].width == 50.0
    requires p.wordHeight == 45.0 && p.wordBankOffsetY == 0.0 && DenseRanks(Orders(s))
    requires g.containerWidth == 300.0 && (!g.rtl ==> g.lineGap == 1.0)
    requires ZoneChanged(s, 0, 10.0, p, g) == LaidOut(s', g)
    ensures !g.rtl ==> Orders(Dragged(s, 0, 25.0, 10.0, p, g)) == [0, 1]
    ensures g.rtl ==> Orders(Dragged(s, 0, 25.0, 10.0, p, g)) == [1, 0]
  {
    var r := LaidOut(s', g);
    PairFirstPlaced(s', g);
    assert Dragged(s, 0, 25.0, 10.0, p, g) == HitReordered(r, 0, 25.0, 10.0, p, g);
    PairReordered(r, p, g);
  }

  /** The hit test and `reorder` on the laid-out pair. */
  lemma PairReordered(r: seq<Offset>, p: Props, g: Geometry)
    requires |r| == 2 && r[0].order == 1 && r[1].order == 0 && r[1].width == 50.0 && DenseRanks(Orders(r))
    requires p.wordHeight == 45.0 && p.wordBankOffsetY == 0.0
    requires r[1].x == (if g.rtl then 250.0 else 0.0) && (!g.rtl ==> r[1].y == 0.5)
    ensures !g.rtl ==> Orders(HitReordered(r, 0, 25.0, 10.0, p, g)) == [0, 1]
    ensures g.rtl ==> Orders(HitReordered(r, 0, 25.0, 10.0, p, g)) == [1, 0]
  {
    if g.rtl {
      PairMissed(r);
      assert HitReordered(r, 0, 25.0, 10.0, p, g) == r;
    } else {
      PairSwapped(r, p, g);
    }
  }

  /** Left to right, the probe hits record 1 and the two swap ranks. */
  lemma PairSwapped(r: seq<Offset>, p: Props, g: Geometry)
    requires |r| == 2 && r[0].order == 1 && r[1].order == 0 && r[1].width == 50.0 && DenseRanks(Orders(r))
    requires p.wordHeight == 45.0 && p.wordBankOffsetY == 0.0 && r[1].x == 0.0 && r[1].y == 0.5
    ensures Orders(HitReordered(r, 0, 25.0, 10.0, p, g)) == [0, 1]
  {
    PairHit(r);
    SwapPair(r, g);
    assert HitReordered(r, 0, 25.0, 10.0, p, g) == LaidOut(Reordered(r, 1, 0), g);
  }

  /** Left to right, the probe at (25, 10) hits record 1 at (0, 0.5). */
  lemma PairHit(r: seq<Offset>)
    requires |r| == 2 && r[0].order == 1 && r[1].order == 0
    requires r[1].x == 0.0 && r[1].y == 0.5 && r[1].width == 50.0
    ensures FirstHit(r, 0, 25.0, 10.0, 45.0, 0.0, 0) == Some(1)
  {
    assert !Hits(r, 0, 0, 25.0, 10.0, 45.0, 0.0);
    assert Hits(r, 0, 1, 25.0, 10.0, 45.0, 0.0);
  }

  /** Right to left, the probe at (25, 10) misses record 1 at x 250. */
  lemma PairMissed(r: seq<Offset>)
    requires |r| == 2 && r[0].order == 1 && r[1].order == 0
    requires r[1].x == 250.0 && r[1].width == 50.0
    ensures FirstHit(r, 0, 25.0, 10.0, 45.0, 0.0, 0) == None
  {
    assert !Hits(r, 0, 0, 25.0, 10.0, 45.0, 0.0);
    assert !Hits(r, 0, 1, 25.0, 10.0, 45.0, 0.0);
    assert FirstHit(r, 0, 25.0, 10.0, 45.0, 0.0, 2) == None;
    assert FirstHit(r, 0, 25.0, 10.0, 45.0, 0.0, 1) == None;
  }

  /** `reorder(1, 0)` on the pair gives the two records each other's rank. */
  lemma SwapPair(r: seq<Offset>, g: Geometry)
    requires |r| == 2 && r[0].order == 1 && r[1].order == 0
    ensures MoveInRange(r, 1, 0)
    ensures Orders(LaidOut(Reordered(r, 1, 0), g)) == [0, 1]
  {
    SwappedPair(r);
    SwapMove();
    assert Reordered(r, 1, 0) == Reranked(r, [0, 1]);
    InOrderPair(r);
    LaidOutFrame(Reordered(r, 1, 0), g);
  }

  lemma SwapMove()
    ensures Move<nat>([1, 0], 1, 0) == [0, 1]
  {
    assert Without<nat>([1, 0], 1) == [1];
  }

  /** Ranking the pair as listed gives record j rank j. */
  lemma InOrderPair(r: seq<Offset>)
    requires |r| == 2
    ensures Orders(Reranked(r, [0, 1])) == [0, 1]
  {
    var m: seq<nat> := [0, 1];
    assert IndexOf(m, 0) == 0 && IndexOf(m, 1) == 1;
    var r' := Reranked(r, m);
    assert r'[0].order == 0 && r'[1].order == 1;
  }

  /** With the line gap and `rtl` in their own slots, a gesture's layout is
      the one the orchestrator writes for the same props, so the
      orchestrator laying the records out again with the same props moves no
      word the gesture placed. */
  lemma GestureLayoutIsStable(s: seq<Offset>, p: Props)
    ensures var orchestrator := Geometry(p.containerWidth, p.wordHeight, p.wordGap, p.lineGap, p.rtl);
      LaidOut(LaidOut(s, GestureGeometry(p)), orchestrator) == LaidOut(s, GestureGeometry(p))
  {
    LayoutIdempotent(s, GestureGeometry(p));
  }

  /** Where a word rests when no gesture holds it: its measured place in the
      bank, shifted by the bank's offset, or its place in the sentence. */
  function Resting(o: Offset, wordBankOffsetY: real): (real, real) {
    if o.order == InBank then (o.originalX, o.originalY + wordBankOffsetY) else (o.x, o.y)
  }

  // ---------------------------------------------------------------------------
  // onActive, as functions of the records

  /** The promote or demote step of `onActive` for the translated `y`: a bank
      word dragged above the sentence's bottom joins the sentence at the end;
      a sentence word dragged below half a word above it returns to the bank. */
  function ZoneChanged(s: seq<Offset>, index: nat, y: real, p: Props, g: Geometry): (r: seq<Offset>)
    requires index < |s|
    ensures |r| == |s|
  {
    if s[index].order == InBank && y < p.linesHeight then
      LaidOut(s[index := s[index].(order := LastOrder(s))], g)
    else if s[index].order != InBank && y > p.linesHeight - p.wordHeight / 2.0 then
      LaidOut(Removed(s[index := s[index].(order := InBank)], index), g)
    else
      s
  }

  /** Record i's box contains the probe point and is a drop target for the
      dragged word `index`: not the dragged word itself while it is in the
      sentence, and of a different order. Bank boxes are where bank words
      rest; `x` must lie strictly inside, `y` may touch the edges. */
  predicate Hits(s: seq<Offset>, index: nat, i: nat, px: real, py: real, wordHeight: real, wordBankOffsetY: real)
    requires index < |s| && i < |s|
  {
    var o := s[i];
    var (x, y) := Resting(o, wordBankOffsetY);
    && !(i == index && o.order != InBank)
    && Between(px, x, x + o.width, false)
    && Between(py, y, y + wordHeight, true)
    && s[index].order != o.order
  }

  /** The first record from i on that the probe hits. */
  function FirstHit(s: seq<Offset>, index: nat, px: real, py: real, wordHeight: real, wordBankOffsetY: real,
                    i: nat): Option<nat>
    requires index < |s|
    decreases |s| - i
  {
    if i >= |s| then None
    else if Hits(s, index, i, px, py, wordHeight, wordBankOffsetY) then Some(i)
    else FirstHit(s, index, px, py, wordHeight, wordBankOffsetY, i + 1)
  }

  /** The `reorder` step of `onActive`: the dragged word takes the place of
      the first record hit, and the sentence is laid out again. */
  function HitReordered(s: seq<Offset>, index: nat, px: real, py: real, p: Props, g: Geometry): (r: seq<Offset>)
    requires index < |s| && DenseRanks(Orders(s))
    ensures |r| == |s|
  {
    match FirstHit(s, index, px, py, p.wordHeight, p.wordBankOffsetY, 0)
    case None => s
    case Some(i) =>
      FirstHitIsFirst(s, index, px, py, p.wordHeight, p.wordBankOffsetY, 0);
      HitInRange(s, index, i, px, py, p.wordHeight, p.wordBankOffsetY);
      LaidOut(Reordered(s, s[index].order, s[i].order), g)
  }

  /** The records after one `onActive` update that moved the probe to
      (px, py): the zone change, then at most one `reorder`. */
  function Dragged(s: seq<Offset>, index: nat, px: real, py: real, p: Props, g: Geometry): (r: seq<Offset>)
    requires index < |s| && DenseRanks(Orders(s))
    ensures |r| == |s|
  {
    ZoneChangedKeepsDense(s, index, py, p, g);
    HitReordered(ZoneChanged(s, index, py, p, g), index, px, py, p, g)
  }

  /** The records after a tap, before the deferred layout: a bank word joins
      the sentence at the end, a sentence word returns to the bank and the
      others close the gap. */
  function Tapped(s: seq<Offset>, index: nat): (r: seq<Offset>)
    requires index < |s|
    ensures |r| == |s|
  {
    if s[index].order == InBank then s[index := s[index].(order := LastOrder(s))]
    else Removed(s[index := s[index].(order := InBank)], index)
  }

  // ---------------------------------------------------------------------------
  // The hit test

  /** `FirstHit` finds the lowest index the probe hits, or reports that it
      hits none. */
  lemma {:induction false} FirstHitIsFirst(s: seq<Offset>, index: nat, px: real, py: real, wordHeight: real,
                                           wordBankOffsetY: real, i: nat)
    requires index < |s|
    ensures match FirstHit(s, index, px, py, wordHeight, wordBankOffsetY, i)
      case Some(h) =>
        && i <= h < |s| && Hits(s, index, h, px, py, wordHeight, wordBankOffsetY)
        && forall j :: i <= j < h ==> !Hits(s, index, j, px, py, wordHeight, wordBankOffsetY)
      case None =>
        forall j :: i <= j < |s| ==> !Hits(s, index, j, px, py, wordHeight, wordBankOffsetY)
    decreases |s| - i
  {
    if i < |s| && !Hits(s, index, i, px, py, wordHeight, wordBankOffsetY) {
      FirstHitIsFirst(s, index, px, py, wordHeight, wordBankOffsetY, i + 1);
    }
  }

  /** On dense ranks, a hit names two ranks `move` accepts: two ranks of the
      sentence, or -1 (the last rank) and a rank. */
  lemma HitInRange(s: seq<Offset>, index: nat, i: nat, px: real, py: real, wordHeight: real, wordBankOffsetY: real)
    requires DenseRanks(Orders(s)) && index < |s| && i < |s|
    requires Hits(s, index, i, px, py, wordHeight, wordBankOffsetY)
    ensures MoveInRange(s, s[index].order, s[i].order)
  {
    var os := Orders(s);
    assert os[index] == s[index].order && os[i] == s[i].order;
  }

  /** The loop of `onActive` up to its `break`: the index of the first record
      whose box the probe is in. */
  method FindHit(offsets: array<Offset>, index: nat, px: real, py: real, wordHeight: real, wordBankOffsetY: real)
    returns (hit: Option<nat>)
    requires index < offsets.Length
    ensures hit == FirstHit(offsets[..], index, px, py, wordHeight, wordBankOffsetY, 0)
  {
    for i := 0 to offsets.Length
      invariant FirstHit(offsets[..], index, px, py, wordHeight, wordBankOffsetY, 0)
             == FirstHit(offsets[..], index, px, py, wordHeight, wordBankOffsetY, i)
    {
      var o := offsets[i];
      if i == index && o.order != InBank {
        continue;
      }
      var isInBank := o.order == InBank;
      var x := if isInBank then o.originalX else o.x;
      var y := if isInBank then o.originalY + wordBankOffsetY else o.y;
      if Between(px, x, x + o.width, false) && Between(py, y, y + wordHeight, true)
         && offsets[index].order != o.order {
        return Some(i);
      }
    }
    return None;
  }

  // ---------------------------------------------------------------------------
  // What onActive and the tap do to the sentence

  /** The zone change keeps the ranks dense. */
  lemma ZoneChangedKeepsDense(s: seq<Offset>, index: nat, y: real, p: Props, g: Geometry)
    requires index < |s| && DenseRanks(Orders(s))
    ensures DenseRanks(Orders(ZoneChanged(s, index, y, p, g)))
  {
    if s[index].order == InBank && y < p.linesHeight {
      var s' := s[index := s[index].(order := LastOrder(s))];
      AppendKeepsDense(s, index);
      LaidOutFrame(s', g);
    } else if s[index].order != InBank && y > p.linesHeight - p.wordHeight / 2.0 {
      var s' := s[index := s[index].(order := InBank)];
      RemoveDense(s', index);
      LaidOutFrame(Removed(s', index), g);
    }
  }

  /** Promotion appends the dragged word to the sentence. */
  lemma PromoteAppends(s: seq<Offset>, index: nat, y: real, p: Props, g: Geometry)
    requires index < |s| && DenseRanks(Orders(s))
    requires s[index].order == InBank && y < p.linesHeight
    ensures Sentence(ZoneChanged(s, index, y, p, g)) == Sentence(s) + [index]
    ensures LastOrder(ZoneChanged(s, index, y, p, g)) == LastOrder(s) + 1
  {
    var s' := s[index := s[index].(order := LastOrder(s))];
    AppendKeepsDense(s, index);
    LaidOutFrame(s', g);
    assert Orders(LaidOut(s', g)) == Orders(s');
  }

  /** Demotion puts the dragged word in the bank and leaves the rest of the
      sentence in its order. */
  lemma DemoteRemoves(s: seq<Offset>, index: nat, y: real, p: Props, g: Geometry)
    requires index < |s| && DenseRanks(Orders(s))
    requires s[index].order != InBank && y > p.linesHeight - p.wordHeight / 2.0
    ensures ZoneChanged(s, index, y, p, g)[index].order == InBank
    ensures var s' := s[index := s[index].(order := InBank)];
      Sentence(ZoneChanged(s, index, y, p, g)) == Ranked(Orders(s'), index)
  {
    var s' := s[index := s[index].(order := InBank)];
    RemoveDense(s', index);
    LaidOutFrame(Removed(s', index), g);
    assert Orders(LaidOut(Removed(s', index), g)) == Orders(Removed(s', index));
  }

  /** Between the two thresholds nothing changes zone. */
  lemma NoZoneChange(s: seq<Offset>, index: nat, y: real, p: Props, g: Geometry)
    requires index < |s|
    requires s[index].order == InBank ==> y >= p.linesHeight
    requires s[index].order != InBank ==> y <= p.linesHeight - p.wordHeight / 2.0
    ensures ZoneChanged(s, index, y, p, g) == s
  {
  }

  /** The `reorder` step keeps the ranks dense and every word in its zone. */
  lemma HitReorderedKeepsDense(s: seq<Offset>, index: nat, px: real, py: real, p: Props, g: Geometry)
    requires index < |s| && DenseRanks(Orders(s))
    ensures DenseRanks(Orders(HitReordered(s, index, px, py, p, g)))
    ensures forall j :: 0 <= j < |s| ==> (HitReordered(s, index, px, py, p, g)[j].order == InBank <==> s[j].order == InBank)
  {
    match FirstHit(s, index, px, py, p.wordHeight, p.wordBankOffsetY, 0)
    case None =>
    case Some(i) =>
      FirstHitIsFirst(s, index, px, py, p.wordHeight, p.wordBankOffsetY, 0);
      HitInRange(s, index, i, px, py, p.wordHeight, p.wordBankOffsetY);
      var s2 := Reordered(s, s[index].order, s[i].order);
      MovedSentence(s, s[index].order, s[i].order);
      RerankSentence(s, Move(Sentence(s), s[index].order, s[i].order));
      LaidOutFrame(s2, g);
      assert Orders(LaidOut(s2, g)) == Orders(s2);
  }

  /** One `onActive` update keeps the ranks dense. */
  lemma DraggedKeepsDense(s: seq<Offset>, index: nat, px: real, py: real, p: Props, g: Geometry)
    requires index < |s| && DenseRanks(Orders(s))
    ensures DenseRanks(Orders(Dragged(s, index, px, py, p, g)))
  {
    ZoneChangedKeepsDense(s, index, py, p, g);
    HitReorderedKeepsDense(ZoneChanged(s, index, py, p, g), index, px, py, p, g);
  }

  /** Dragging a sentence word onto another sentence word gives it that
      word's rank. */
  lemma DropOnWordTakesItsRank(s: seq<Offset>, index: nat, i: nat, px: real, py: real, p: Props, g: Geometry)
    requires index < |s| && DenseRanks(Orders(s))
    requires FirstHit(s, index, px, py, p.wordHeight, p.wordBankOffsetY, 0) == Some(i)
    requires s[index].order != InBank && i < |s| && s[i].order != InBank
    ensures HitReordered(s, index, px, py, p, g)[index].order == s[i].order
  {
    FirstHitIsFirst(s, index, px, py, p.wordHeight, p.wordBankOffsetY, 0);
    var os := Orders(s);
    assert os[index] == s[index].order && os[i] == s[i].order;
    ReorderLands(s, s[index].order, s[i].order, index);
    LaidOutFrame(Reordered(s, s[index].order, s[i].order), g);
  }

  /** A tap keeps the ranks dense. */
  lemma TapKeepsDense(s: seq<Offset>, index: nat)
    requires index < |s| && DenseRanks(Orders(s))
    ensures DenseRanks(Orders(Tapped(s, index)))
    ensures Tapped(s, index)[index].order == InBank <==> s[index].order != InBank
  {
    if s[index].order == InBank {
      AppendKeepsDense(s, index);
    } else {
      RemoveDense(s[index := s[index].(order := InBank)], index);
    }
  }

  /** Tapping a bank word appends it to the sentence. */
  lemma TapAppends(s: seq<Offset>, index: nat)
    requires index < |s| && DenseRanks(Orders(s)) && s[index].order == InBank
    ensures Sentence(Tapped(s, index)) == Sentence(s) + [index]
  {
    AppendKeepsDense(s, index);
  }

  /** Tapping a bank word twice gives back every record. */
  lemma TapTwiceRestores(s: seq<Offset>, index: nat)
    requires index < |s| && DenseRanks(Orders(s)) && s[index].order == InBank
    ensures Tapped(Tapped(s, index), index) == s
  {
    AppendKeepsDense(s, index);
    AppendThenRemoveRoundTrip(s, index);
  }

  /** A word at rest sits where the hit test looks for it. */
  lemma RestingIsHitBox(s: seq<Offset>, index: nat, i: nat, wordHeight: real, wordBankOffsetY: real)
    requires index < |s| && i < |s| && s[index].order != s[i].order && s[i].width > 0.0 && wordHeight >= 0.0
    ensures var (x, y) := Resting(s[i], wordBankOffsetY);
      Hits(s, index, i, x + s[i].width / 2.0, y, wordHeight, wordBankOffsetY)
  {
  }

  // ---------------------------------------------------------------------------
  // The component

  class SortableWord {
    const offsets: array<Offset>
    const index: nat
    const props: Props
    /** The arguments the handlers pass to `calculateLayout`. */
    const layout: Geometry
    var isGestureActive: bool
    var isAnimating: bool
    var translationX: real
    var translationY: real
    /** The gesture handler's context, kept from one gesture to the next. */
    var ctxX: real
    var ctxY: real
    /** Layouts a tap has scheduled that have not run yet. */
    var pendingLayouts: nat

    ghost predicate Valid()
      reads offsets
    {
      index < offsets.Length && DenseRanks(Orders(offsets[..]))
    }

    /** A word over records that already keep I1, as seeding leaves them
        (`SeededAllInBank`); `layout` is `AsWrittenGestureGeometry(props)`
        for the handlers as written, `GestureGeometry(props)` corrected. */
    constructor(offsets: array<Offset>, index: nat, props: Props, layout: Geometry)
      requires index < offsets.Length && DenseRanks(Orders(offsets[..]))
      requires layout == AsWrittenGestureGeometry(props) || layout == GestureGeometry(props)
      ensures Valid()
      ensures this.offsets == offsets && this.index == index && this.props == props && this.layout == layout
      ensures !isGestureActive && !isAnimating && pendingLayouts == 0
      ensures translationX == 0.0 && translationY == 0.0
    {
      this.offsets := offsets;
      this.index := index;
      this.props := props;
      this.layout := layout;
      isGestureActive := false;
      isAnimating := false;
      translationX, translationY := 0.0, 0.0;
      ctxX, ctxY := 0.0, 0.0;
      pendingLayouts := 0;
    }

    /** The position shown: the translation while a gesture holds the word,
        otherwise the resting place the settle animation heads for. */
    function Shown(): (real, real)
      reads this, offsets
      requires index < offsets.Length
    {
      if isGestureActive then (translationX, translationY) else Resting(offsets[index], props.wordBankOffsetY)
    }

    method OnStart()
      requires index < offsets.Length
      modifies this
      ensures old(isAnimating) ==> translationX == old(translationX) && translationY == old(translationY)
      ensures old(isAnimating) ==> ctxX == old(ctxX) && ctxY == old(ctxY)
      ensures !old(isAnimating) ==> (translationX, translationY) == Resting(offsets[index], props.wordBankOffsetY)
      ensures !old(isAnimating) ==> ctxX == translationX && ctxY == translationY
      ensures isGestureActive == old(isGestureActive) && isAnimating == old(isAnimating)
      ensures pendingLayouts == old(pendingLayouts)
    {
      if isAnimating {
        return;
      }
      var offset := offsets[index];
      if offset.order == InBank {
        translationX := offset.originalX;
        translationY := offset.originalY + props.wordBankOffsetY;
      } else {
        translationX := offset.x;
        translationY := offset.y;
      }
      ctxX := translationX;
      ctxY := translationY;
    }

    method OnActive(dx: real, dy: real)
      requires Valid()
      modifies this, offsets
      ensures Valid()
      ensures isGestureActive
      ensures translationX == old(ctxX) + dx && translationY == old(ctxY) + dy
      ensures ctxX == old(ctxX) && ctxY == old(ctxY)
      ensures isAnimating == old(isAnimating) && pendingLayouts == old(pendingLayouts)
      ensures offsets[..] == Dragged(old(offsets[..]), index, translationX, translationY, props, layout)
      ensures Shown() == (translationX, translationY)
    {
      isGestureActive := true;
      translationX := ctxX + dx;
      translationY := ctxY + dy;
      ChangeZone(translationY);
      ReorderOnHit(translationX, translationY);
    }

    /** Lines 70-77 of `onActive`: promote or demote the dragged word. */
    method ChangeZone(y: real)
      requires Valid()
      modifies offsets
      ensures Valid()
      ensures offsets[..] == ZoneChanged(old(offsets[..]), index, y, props, layout)
    {
      ghost var s := offsets[..];
      var inBank := offsets[index].order == InBank;
      if inBank && y < props.linesHeight {
        offsets[index] := offsets[index].(order := LastOrder(offsets[..]));
        Relayout();
      } else if !inBank && y > props.linesHeight - props.wordHeight / 2.0 {
        offsets[index] := offsets[index].(order := InBank);
        Remove(offsets, index);
        Relayout();
      }
      ZoneChangedKeepsDense(s, index, y, props, layout);
    }

    /** Lines 79-96 of `onActive`: reorder onto the first record hit. */
    method ReorderOnHit(px: real, py: real)
      requires Valid()
      modifies offsets
      ensures Valid()
      ensures offsets[..] == HitReordered(old(offsets[..]), index, px, py, props, layout)
    {
      ghost var s := offsets[..];
      var hit := FindHit(offsets, index, px, py, props.wordHeight, props.wordBankOffsetY);
      FirstHitIsFirst(s, index, px, py, props.wordHeight, props.wordBankOffsetY, 0);
      if hit.Some? {
        var o := offsets[hit.value];
        HitInRange(s, index, hit.value, px, py, props.wordHeight, props.wordBankOffsetY);
        Reorder(offsets, offsets[index].order, o.order);
        Relayout();
      }
      HitReorderedKeepsDense(s, index, px, py, props, layout);
    }

    /** `calculateLayout` with the word's layout arguments. */
    method Relayout()
      modifies offsets
      ensures offsets[..] == LaidOut(old(offsets[..]), layout)
      ensures Orders(offsets[..]) == Orders(old(offsets[..]))
    {
      CalculateLayout(offsets, layout.containerWidth, layout.wordHeight, layout.wordGap, layout.lineGap, layout.rtl);
      LaidOutFrame(old(offsets[..]), layout);
    }

    method OnEnd()
      requires index < offsets.Length
      modifies this
      ensures isAnimating && !isGestureActive
      ensures translationX == offsets[index].x && translationY == offsets[index].y
      ensures Shown() == Resting(offsets[index], props.wordBankOffsetY)
      ensures offsets[index].order != InBank ==> Shown() == (translationX, translationY)
      ensures ctxX == old(ctxX) && ctxY == old(ctxY) && pendingLayouts == old(pendingLayouts)
    {
      isAnimating := true;
      translationX := offsets[index].x;
      translationY := offsets[index].y;
      isGestureActive := false;
    }

    /** `onActivated`: toggle the zone, start animating, and schedule the
        layout that follows 16 ms later. */
    method OnTap()
      requires Valid()
      modifies this, offsets
      ensures Valid()
      ensures offsets[..] == Tapped(old(offsets[..]), index)
      ensures isAnimating && pendingLayouts == old(pendingLayouts) + 1
      ensures isGestureActive == old(isGestureActive)
      ensures translationX == old(translationX) && translationY == old(translationY)
      ensures ctxX == old(ctxX) && ctxY == old(ctxY)
    {
      ghost var s := offsets[..];
      if offsets[index].order == InBank {
        offsets[index] := offsets[index].(order := LastOrder(offsets[..]));
      } else {
        offsets[index] := offsets[index].(order := InBank);
        Remove(offsets, index);
      }
      TapKeepsDense(s, index);
      isAnimating := true;
      pendingLayouts := pendingLayouts + 1;
    }

    /** The tap's deferred step: lay the sentence out and move the
        translation to the word's new place. */
    method TapLayout()
      requires Valid() && pendingLayouts > 0
      modifies this, offsets
      ensures Valid()
      ensures offsets[..] == LaidOut(old(offsets[..]), layout)
      ensures translationX == offsets[index].x && translationY == offsets[index].y
      ensures pendingLayouts == old(pendingLayouts) - 1
      ensures isAnimating == old(isAnimating) && isGestureActive == old(isGestureActive)
      ensures ctxX == old(ctxX) && ctxY == old(ctxY)
    {
      Relayout();
      translationX := offsets[index].x;
      translationY := offsets[index].y;
      pendingLayouts := pendingLayouts - 1;
    }

    /** The settle animation reached its target. */
    method SettleFinished()
      modifies this
      ensures !isAnimating
      ensures isGestureActive == old(isGestureActive) && pendingLayouts == old(pendingLayouts)
      ensures translationX == old(translationX) && translationY == old(translationY)
      ensures ctxX == old(ctxX) && ctxY == old(ctxY)
    {
      isAnimating := false;
    }
  }
}
