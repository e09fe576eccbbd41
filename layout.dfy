/** src/Layout.ts: the per-word record, the sequence operations on the answer
    sentence (`lastOrder`, `remove`, `reorder`) and the line-wrap layout
    (`calculateLayout`).

    The source passes around an array of references to mutable records and
    sorts copies of that array, so every write lands in the shared records.
    Here the shared array is an `array<Offset>` of values and a write through
    a reference `r.f = v` is the update `a[i] := a[i].(f := v)` of the slot
    that reference stands for. */
module Layout {
  import opened Redash
  import opened Ranking

  /** The record every word owns (`Offset` in src/Layout.ts). `order` is -1 for
      a word in the bank, otherwise the word's rank in the sentence. */
  datatype Offset = Offset(
    order: int,
    height: real,
    width: real,
    x: real,
    y: real,
    originalX: real,
    originalY: real)

  /** The `order` column of the records. */
  function Orders(s: seq<Offset>): (os: seq<int>)
    ensures |os| == |s| && forall i :: 0 <= i < |s| ==> os[i] == s[i].order
  {
    seq(|s|, i requires 0 <= i < |s| => s[i].order)
  }

  /** `lastOrder`: the number of answered words, which is the rank a word
      appended to the sentence receives. */
  function LastOrder(s: seq<Offset>): nat {
    Count(Orders(s))
  }

  /** The sentence: answered indices in (order, index) order. */
  function Sentence(s: seq<Offset>): seq<nat> {
    Ranked(Orders(s), InBank)
  }

  /** The records after `for (i = 0; i < m.length; i++) m[i].order.value = i`:
      each word listed in m gets its position in m as its order. */
  function Reranked(s: seq<Offset>, m: seq<nat>): (r: seq<Offset>)
    ensures |r| == |s|
  {
    seq(|s|, j requires 0 <= j < |s| => if j in m then s[j].(order := IndexOf(m, j)) else s[j])
  }

  /** The records after `remove(input, index)`. */
  function Removed(s: seq<Offset>, index: int): (r: seq<Offset>)
    ensures |r| == |s|
  {
    Reranked(s, Ranked(Orders(s), index))
  }

  /** The ranks `from` and `to` of `reorder` index the sorted sentence, so
      they must lie in the range `move` accepts. */
  predicate MoveInRange(s: seq<Offset>, from: int, to: int) {
    var k := LastOrder(s) as int;
    -k <= from < k && -k <= to
  }

  /** The records after `reorder(input, from, to)`. */
  function Reordered(s: seq<Offset>, from: int, to: int): (r: seq<Offset>)
    requires MoveInRange(s, from, to)
    ensures |r| == |s|
  {
    Reranked(s, Move(Sentence(s), from, to))
  }

  // ---------------------------------------------------------------------------
  // The operations, in place

  /** The shared loop of `remove` and `reorder`: write each listed word's
      position in the list into its `order`. */
  method Rerank(a: array<Offset>, m: seq<nat>)
    requires forall k :: 0 <= k < |m| ==> m[k] < a.Length
    requires Distinct(m)
    modifies a
    ensures a[..] == Reranked(old(a[..]), m)
  {
    for i := 0 to |m|
      invariant forall j :: 0 <= j < a.Length ==>
        a[j] == if j in m[..i] then old(a[j]).(order := IndexOf(m, j)) else old(a[j])
    {
      IndexOfDistinct(m, i);
      assert m[..i + 1] == m[..i] + [m[i]];
      a[m[i]] := a[m[i]].(order := i);
    }
    assert m[..|m|] == m;
  }

  method Remove(a: array<Offset>, index: int)
    modifies a
    ensures a[..] == Removed(old(a[..]), index)
  {
    var offsets := Ranked(Orders(a[..]), index);
    RankedFacts(Orders(a[..]), index);
    Rerank(a, offsets);
  }

  method Reorder(a: array<Offset>, from: int, to: int)
    requires MoveInRange(a[..], from, to)
    modifies a
    ensures a[..] == Reordered(old(a[..]), from, to)
  {
    var offsets := Sentence(a[..]);
    RankedFacts(Orders(a[..]), InBank);
    MoveIsPermutation(offsets, from, to);
    MoveKeepsDistinct(offsets, from, to);
    var newOffset := Move(offsets, from, to);
    assert forall k :: 0 <= k < |newOffset| ==> newOffset[k] in multiset(offsets);
    Rerank(a, newOffset);
  }

  // ---------------------------------------------------------------------------
  // What re-ranking does to the sentence

  /** Re-ranking by a list of exactly the answered words, each once, gives
      dense ranks whose sentence is that list; bank members stay the same. */
  lemma RerankSentence(s: seq<Offset>, m: seq<nat>)
    requires Distinct(m) && |m| == LastOrder(s)
    requires forall j: nat :: j in m <==> j < |s| && s[j].order != InBank
    ensures forall j :: 0 <= j < |s| ==> (Reranked(s, m)[j].order == InBank <==> s[j].order == InBank)
    ensures LastOrder(Reranked(s, m)) == LastOrder(s)
    ensures DenseRanks(Orders(Reranked(s, m)))
    ensures Sentence(Reranked(s, m)) == m
  {
    var r := Reranked(s, m);
    var os, os' := Orders(s), Orders(r);
    forall j | 0 <= j < |s| ensures (os'[j] == InBank <==> os[j] == InBank) {
      if j in m { assert os'[j] == IndexOf(m, j) >= 0; }
    }
    CandidatesByMembership(os, os', InBank, |s|);
    forall i | 0 <= i < |os'| && os'[i] != InBank ensures 0 <= os'[i] < Count(os') {
    }
    forall i, j | 0 <= i < j < |os'| && os'[i] != InBank && os'[j] != InBank ensures os'[i] != os'[j] {
      assert i in m && j in m;
    }
    assert forall k :: 0 <= k < |m| ==> m[k] in m;
    forall p | 0 <= p < |m| ensures os'[m[p]] == p {
      IndexOfDistinct(m, p);
    }
    DenseSentenceUnique(os', m);
  }

  // ---------------------------------------------------------------------------
  // lastOrder

  /** `lastOrder` is the number of records whose order is not -1. */
  lemma LastOrderCounts(s: seq<Offset>)
    ensures LastOrder(s) == |set j: nat | j < |s| && s[j].order != InBank|
  {
    CountIsAnswered(Orders(s));
    assert AnsweredSet(Orders(s)) == set j: nat | j < |s| && s[j].order != InBank;
  }

  /** Giving a bank word the order `lastOrder` appends it to the sentence:
      ranks 0..k-1 become 0..k. */
  lemma AppendKeepsDense(s: seq<Offset>, i: nat)
    requires DenseRanks(Orders(s)) && i < |s| && s[i].order == InBank
    ensures LastOrder(s[i := s[i].(order := LastOrder(s))]) == LastOrder(s) + 1
    ensures DenseRanks(Orders(s[i := s[i].(order := LastOrder(s))]))
    ensures Sentence(s[i := s[i].(order := LastOrder(s))]) == Sentence(s) + [i]
  {
    var s' := s[i := s[i].(order := LastOrder(s))];
    assert Orders(s') == Orders(s)[i := LastOrder(s)];
    AppendDense(Orders(s), i);
    AppendSentence(Orders(s), i);
  }

  // ---------------------------------------------------------------------------
  // remove

  /** After `remove(input, index)` on a word whose order the caller already set
      to -1, the ranks are dense again and the sentence is the old one without
      that word, in the old (order, index) order; bank membership is kept. */
  lemma RemoveDense(s: seq<Offset>, index: int)
    requires !(0 <= index < |s|) || s[index].order == InBank
    ensures forall j :: 0 <= j < |s| ==> (Removed(s, index)[j].order == InBank <==> s[j].order == InBank)
    ensures LastOrder(Removed(s, index)) == LastOrder(s)
    ensures DenseRanks(Orders(Removed(s, index)))
    ensures Sentence(Removed(s, index)) == Ranked(Orders(s), index)
  {
    var os := Orders(s);
    var m := Ranked(os, index);
    RankedFacts(os, index);
    CandidatesSkipBank(os, index, |s|);
    RerankSentence(s, m);
  }

  /** `remove` keeps the relative order of the remaining answered words: their
      new ranks compare as their old (order, index) keys did. */
  lemma RemoveKeepsRelativeOrder(s: seq<Offset>, index: int, i: nat, j: nat)
    requires !(0 <= index < |s|) || s[index].order == InBank
    requires i < |s| && j < |s| && s[i].order != InBank && s[j].order != InBank
    ensures Removed(s, index)[i].order < Removed(s, index)[j].order <==> Before(Orders(s), i, j) && i != j
  {
    var os := Orders(s);
    var m := Ranked(os, index);
    RankedFacts(os, index);
    assert i in m && j in m;
    SortedPositions(os, m, IndexOf(m, i), IndexOf(m, j));
  }

  /** In a list sorted by (order, index), position decides the key order. */
  lemma SortedPositions(os: seq<int>, m: seq<nat>, p: nat, q: nat)
    requires InBounds(os, m) && SortedByOrder(os, m) && p < |m| && q < |m|
    ensures p < q <==> Before(os, m[p], m[q]) && m[p] != m[q]
  {
    if q < p { assert Before(os, m[q], m[p]); }
  }

  /** `remove` writes `order` only, only of answered words other than `index`. */
  lemma RemoveFrame(s: seq<Offset>, index: int, j: nat)
    requires j < |s|
    ensures Removed(s, index)[j] == s[j].(order := Removed(s, index)[j].order)
    ensures j == index || s[j].order == InBank ==> Removed(s, index)[j] == s[j]
  {
    RankedFacts(Orders(s), index);
  }

  /** On dense ranks, removing a bank word changes nothing. */
  lemma RemoveBankWordIsIdentity(s: seq<Offset>, index: nat)
    requires DenseRanks(Orders(s)) && index < |s| && s[index].order == InBank
    ensures Removed(s, index) == s
  {
    var os := Orders(s);
    var m := Ranked(os, index);
    CandidatesSkipBank(os, index, |s|);
    DenseRankedAt(os);
    forall j | 0 <= j < |s| ensures Removed(s, index)[j] == s[j] {
      if j in m {
        assert os[m[IndexOf(m, j)]] == IndexOf(m, j);
      }
    }
  }

  /** Tapping a bank word and then tapping it again restores every order:
      append at `lastOrder`, set -1, `remove`. */
  lemma AppendThenRemoveRoundTrip(s: seq<Offset>, i: nat)
    requires DenseRanks(Orders(s)) && i < |s| && s[i].order == InBank
    ensures var s1 := s[i := s[i].(order := LastOrder(s))];
            Removed(s1[i := s1[i].(order := InBank)], i) == s
  {
    var s1 := s[i := s[i].(order := LastOrder(s))];
    assert s1[i := s1[i].(order := InBank)] == s;
    RemoveBankWordIsIdentity(s, i);
  }

  // ---------------------------------------------------------------------------
  // reorder

  /** The list `reorder` re-ranks by names each answered word once. */
  lemma MovedSentence(s: seq<Offset>, from: int, to: int)
    requires MoveInRange(s, from, to)
    ensures |Move(Sentence(s), from, to)| == LastOrder(s)
    ensures Distinct(Move(Sentence(s), from, to))
    ensures forall j: nat :: j in Move(Sentence(s), from, to) <==> j < |s| && s[j].order != InBank
    ensures forall k :: 0 <= k < |Move(Sentence(s), from, to)| ==> Move(Sentence(s), from, to)[k] < |s|
  {
    var l := Sentence(s);
    RankedFacts(Orders(s), InBank);
    assert |l| == LastOrder(s);
    MoveKeepsDistinct(l, from, to);
    MoveKeepsMembers(l, from, to);
    var m := Move(l, from, to);
    assert forall j: nat :: j in l <==> j < |s| && s[j].order != InBank;
    assert forall k :: 0 <= k < |m| ==> m[k] in l;
  }

  /** After `reorder` the ranks are dense, the sentence is the old sentence
      with `move` applied, bank members are untouched and only `order` changes. */
  lemma ReorderSentence(s: seq<Offset>, from: int, to: int)
    requires MoveInRange(s, from, to)
    ensures DenseRanks(Orders(Reordered(s, from, to)))
    ensures LastOrder(Reordered(s, from, to)) == LastOrder(s)
    ensures Sentence(Reordered(s, from, to)) == Move(Sentence(s), from, to)
    ensures forall j :: 0 <= j < |s| && s[j].order == InBank ==> Reordered(s, from, to)[j] == s[j]
    ensures forall j :: 0 <= j < |s| ==> Reordered(s, from, to)[j] == s[j].(order := Reordered(s, from, to)[j].order)
  {
    MovedSentence(s, from, to);
    RerankSentence(s, Move(Sentence(s), from, to));
  }

  /** With dense ranks, a word's order is its position in the sentence. */
  lemma DenseOrderIsPosition(s: seq<Offset>, w: nat)
    requires DenseRanks(Orders(s)) && w < |s| && s[w].order != InBank
    ensures w in Sentence(s) && s[w].order == IndexOf(Sentence(s), w)
  {
    DenseRankedAt(Orders(s));
    RankedFacts(Orders(s), InBank);
  }

  /** On dense ranks with `from` and `to` both ranks of the sentence, the word
      of rank `from` gets rank `to`. */
  lemma ReorderLands(s: seq<Offset>, from: nat, to: nat, w: nat)
    requires DenseRanks(Orders(s)) && from < LastOrder(s) && to < LastOrder(s)
    requires w < |s| && s[w].order == from
    ensures Reordered(s, from, to)[w].order == to
  {
    var l := Sentence(s);
    DenseOrderIsPosition(s, w);
    ReorderSentence(s, from, to);
    var s' := Reordered(s, from, to);
    MoveLands(l, from, to);
    DenseOrderIsPosition(s', w);
    RankedFacts(Orders(s'), InBank);
    IndexOfDistinct(Sentence(s'), to);
  }

  /** ... and any two other answered words keep their relative order. */
  lemma ReorderKeepsOthers(s: seq<Offset>, from: nat, to: nat, u: nat, v: nat)
    requires DenseRanks(Orders(s)) && from < LastOrder(s) && to < LastOrder(s)
    requires u < |s| && v < |s| && s[u].order != InBank && s[v].order != InBank
    requires s[u].order != from && s[v].order != from
    ensures Reordered(s, from, to)[u].order < Reordered(s, from, to)[v].order <==> s[u].order < s[v].order
  {
    var l := Sentence(s);
    DenseOrderIsPosition(s, u);
    DenseOrderIsPosition(s, v);
    RankedFacts(Orders(s), InBank);
    DenseRankedAt(Orders(s));
    ReorderSentence(s, from, to);
    var s' := Reordered(s, from, to);
    DenseOrderIsPosition(s', u);
    DenseOrderIsPosition(s', v);
    MoveKeepsRelativeOrder(l, from, to, u, v);
  }

  /** Moving a word onto its own rank leaves every record as it was. */
  lemma ReorderInPlace(s: seq<Offset>, i: nat)
    requires DenseRanks(Orders(s)) && i < LastOrder(s)
    ensures Reordered(s, i, i) == s
  {
    var l := Sentence(s);
    var os := Orders(s);
    DenseRankedAt(os);
    RankedFacts(os, InBank);
    MoveInPlace(l, i);
    forall j | 0 <= j < |s| ensures Reordered(s, i, i)[j] == s[j] {
      if j in l {
        assert os[l[IndexOf(l, j)]] == IndexOf(l, j);
      }
    }
  }

  lemma RerankedExample(s: seq<Offset>)
    requires |s| == 4
    ensures Orders(Reranked(s, [1, 2, 0, 3])) == [2, 0, 1, 3]
  {
    var m: seq<nat> := [1, 2, 0, 3];
    assert IndexOf(m, 0) == 2 && IndexOf(m, 1) == 0 && IndexOf(m, 2) == 1 && IndexOf(m, 3) == 3;
    var r := Reranked(s, m);
    assert r[0].order == 2 && r[1].order == 0 && r[2].order == 1 && r[3].order == 3;
  }

  lemma SentenceExample(s: seq<Offset>)
    requires |s| == 4 && forall j :: 0 <= j < 4 ==> s[j].order == j
    ensures LastOrder(s) == 4 && Sentence(s) == [0, 1, 2, 3]
  {
    var os := Orders(s);
    assert os == [0, 1, 2, 3];
    IdentityRanked(os);
  }

  lemma IdentityRanked(os: seq<int>)
    requires os == [0, 1, 2, 3]
    ensures Count(os) == 4 && Ranked(os, InBank) == [0, 1, 2, 3]
  {
    assert Candidates(os, InBank, 1) == [0];
    assert Candidates(os, InBank, 2) == [0, 1];
    assert Candidates(os, InBank, 3) == [0, 1, 2];
    assert Candidates(os, InBank, 4) == [0, 1, 2, 3];
    assert DenseRanks(os);
    DenseSentenceUnique(os, [0, 1, 2, 3]);
  }

  /** The worked example: four answered words with orders 0..3; `reorder(0, 2)`
      gives the rank-0 word order 2, ranks 1 and 2 become 0 and 1, rank 3 stays. */
  lemma ReorderExample(s: seq<Offset>)
    requires |s| == 4 && forall j :: 0 <= j < 4 ==> s[j].order == j
    ensures LastOrder(s) == 4
    ensures Orders(Reordered(s, 0, 2)) == [2, 0, 1, 3]
  {
    SentenceExample(s);
    MoveExample<nat>(0, 1, 2, 3);
    RerankedExample(s);
  }

  // ---------------------------------------------------------------------------
  // calculateLayout

  /** The arguments `calculateLayout` takes after the records. */
  datatype Geometry = Geometry(
    containerWidth: real,
    wordHeight: real,
    wordGap: real,
    lineGap: real,
    rtl: bool)

  /** The widths of the words l lists, in that order. */
  function Widths(s: seq<Offset>, l: seq<nat>): (ws: seq<real>)
    ensures |ws| == |l|
    ensures forall k :: 0 <= k < |l| && l[k] < |s| ==> ws[k] == s[l[k]].width
  {
    seq(|l|, k requires 0 <= k < |l| => if l[k] < |s| then s[l[k]].width else 0.0)
  }

  /** `offsets.slice(lo, hi).reduce((acc, o) => acc + o.width + wordGap / 2, 0)`. */
  function RunWidth(ws: seq<real>, lo: nat, hi: nat, gap: real): real
    requires lo <= hi <= |ws|
    decreases hi
  {
    if hi == lo then 0.0 else RunWidth(ws, lo, hi - 1, gap) + ws[hi - 1] + gap / 2.0
  }

  /** The loop variables `lineNumber` and `lineBreak`. */
  datatype Cursor = Cursor(line: nat, lineBreak: nat)

  /** Word k does not fit after the words placed since the cursor's line break. */
  predicate Overflows(ws: seq<real>, g: Geometry, c: Cursor, k: nat)
    requires c.lineBreak <= k < |ws|
  {
    RunWidth(ws, c.lineBreak, k, g.wordGap) + ws[k] > g.containerWidth
  }

  /** The cursor once the first i words are placed. */
  function CursorAfter(ws: seq<real>, g: Geometry, i: nat): (c: Cursor)
    requires i <= |ws|
    ensures c.lineBreak <= i && (i > 0 ==> c.lineBreak < i)
    ensures c.line <= i
  {
    if i == 0 then Cursor(0, 0)
    else
      var c := CursorAfter(ws, g, i - 1);
      if Overflows(ws, g, c, i - 1) then Cursor(c.line + 1, i - 1) else c
  }

  /** The line word k is placed on. */
  function LineOf(ws: seq<real>, g: Geometry, k: nat): nat
    requires k < |ws|
  {
    CursorAfter(ws, g, k + 1).line
  }

  /** The `x` written for word k. */
  function XAt(ws: seq<real>, g: Geometry, k: nat): real
    requires k < |ws|
  {
    var c := CursorAfter(ws, g, k);
    var total := RunWidth(ws, c.lineBreak, k, g.wordGap);
    if total + ws[k] > g.containerWidth then
      (if g.rtl then g.containerWidth - ws[k] else 0.0)
    else
      (if g.rtl then g.containerWidth - total - ws[k] else total)
  }

  /** The `y` written for word k. */
  function YAt(ws: seq<real>, g: Geometry, k: nat): real
    requires k < |ws|
  {
    LineY(g, LineOf(ws, g, k))
  }

  /** The top of line `line`: half a line gap, then whole lines above it. */
  function LineY(g: Geometry, line: nat): real {
    (g.wordHeight + g.lineGap) * line as real + g.lineGap / 2.0
  }

  /** The record of the word of rank k once placed. */
  function Place(o: Offset, ws: seq<real>, g: Geometry, k: nat): Offset
    requires k < |ws|
  {
    o.(x := XAt(ws, g, k), y := YAt(ws, g, k))
  }

  /** The records after `calculateLayout`. */
  function LaidOut(s: seq<Offset>, g: Geometry): (r: seq<Offset>)
    ensures |r| == |s|
  {
    var l := Sentence(s);
    var ws := Widths(s, l);
    seq(|s|, j requires 0 <= j < |s| => if j in l then Place(s[j], ws, g, IndexOf(l, j)) else s[j])
  }

  /** The `reduce` inside the loop: the width of the words from rank lo up to
      rank hi, each followed by half a gap. */
  method SumRun(a: array<Offset>, offsets: seq<nat>, lo: nat, hi: nat, wordGap: real) returns (total: real)
    requires lo <= hi <= |offsets|
    ensures total == RunWidth(Widths(a[..], offsets), lo, hi, wordGap)
  {
    total := 0.0;
    for k := lo to hi
      invariant total == RunWidth(Widths(a[..], offsets), lo, k, wordGap)
    {
      var w := if offsets[k] < a.Length then a[offsets[k]].width else 0.0;
      total := total + w + wordGap / 2.0;
    }
  }

  /** The records once the words of ranks 0..i-1 of l are placed. */
  ghost function Placed(s: seq<Offset>, l: seq<nat>, ws: seq<real>, g: Geometry, i: nat): (r: seq<Offset>)
    requires i <= |l| == |ws|
    ensures |r| == |s|
  {
    seq(|s|, j requires 0 <= j < |s| => if j in l && IndexOf(l, j) < i then Place(s[j], ws, g, IndexOf(l, j)) else s[j])
  }

  lemma PlacedStep(s: seq<Offset>, l: seq<nat>, ws: seq<real>, g: Geometry, i: nat)
    requires i < |l| == |ws| && Distinct(l) && l[i] < |s|
    ensures Placed(s, l, ws, g, i)[l[i]] == s[l[i]]
    ensures Placed(s, l, ws, g, i + 1) == Placed(s, l, ws, g, i)[l[i] := Place(s[l[i]], ws, g, i)]
  {
    IndexOfDistinct(l, i);
    var before, after := Placed(s, l, ws, g, i), Placed(s, l, ws, g, i + 1);
    forall j | 0 <= j < |s| ensures after[j] == before[l[i] := Place(s[l[i]], ws, g, i)][j] {
      if j != l[i] && j in l {
        assert IndexOf(l, j) != i;
      }
    }
  }

  lemma PlacedNone(s: seq<Offset>, l: seq<nat>, ws: seq<real>, g: Geometry)
    requires |l| == |ws|
    ensures Placed(s, l, ws, g, 0) == s
  {
  }

  lemma PlacedWidths(s: seq<Offset>, l: seq<nat>, ws: seq<real>, g: Geometry, i: nat)
    requires i <= |l| == |ws| && ws == Widths(s, l)
    ensures Widths(Placed(s, l, ws, g, i), l) == ws
  {
  }

  lemma PlacedAll(s: seq<Offset>, g: Geometry)
    ensures Placed(s, Sentence(s), Widths(s, Sentence(s)), g, |Sentence(s)|) == LaidOut(s, g)
  {
  }

  /** One turn of the loop: from the running total, the new cursor and the
      record written for the word of rank i. */
  lemma CursorStep(ws: seq<real>, containerWidth: real, wordHeight: real, wordGap: real, lineGap: real,
                   rtl: bool, i: nat, total: real, o: Offset, x: real, lineNumber: nat, lineBreak: nat)
    requires i < |ws| && o.width == ws[i]
    requires var c := CursorAfter(ws, Geometry(containerWidth, wordHeight, wordGap, lineGap, rtl), i);
      && total == RunWidth(ws, c.lineBreak, i, wordGap)
      && if total + o.width > containerWidth then
        && lineNumber == c.line + 1 && lineBreak == i
        && x == (if rtl then containerWidth - o.width else 0.0)
      else
        && lineNumber == c.line && lineBreak == c.lineBreak
        && x == (if rtl then containerWidth - total - o.width else total)
    ensures var g := Geometry(containerWidth, wordHeight, wordGap, lineGap, rtl);
      Cursor(lineNumber, lineBreak) == CursorAfter(ws, g, i + 1) &&
      o.(x := x, y := (wordHeight + lineGap) * lineNumber as real + lineGap / 2.0) == Place(o, ws, g, i)
  {
    var g := Geometry(containerWidth, wordHeight, wordGap, lineGap, rtl);
    assert Cursor(lineNumber, lineBreak) == CursorAfter(ws, g, i + 1);
    assert XAt(ws, g, i) == x;
    assert LineOf(ws, g, i) == lineNumber;
    LineYOf(containerWidth, wordHeight, wordGap, lineGap, rtl, lineNumber);
    assert YAt(ws, g, i) == (wordHeight + lineGap) * lineNumber as real + lineGap / 2.0;
  }

  lemma LineYOf(containerWidth: real, wordHeight: real, wordGap: real, lineGap: real, rtl: bool, line: nat)
    ensures LineY(Geometry(containerWidth, wordHeight, wordGap, lineGap, rtl), line)
         == (wordHeight + lineGap) * line as real + lineGap / 2.0
  {
  }

  /** The sentence lists indices of records, each once. */
  lemma SentenceIndices(s: seq<Offset>)
    ensures Distinct(Sentence(s))
    ensures forall k :: 0 <= k < |Sentence(s)| ==> Sentence(s)[k] < |s|
  {
    RankedFacts(Orders(s), InBank);
  }

  method CalculateLayout(a: array<Offset>, containerWidth: real, wordHeight: real, wordGap: real,
                         lineGap: real, rtl: bool)
    modifies a
    ensures a[..] == LaidOut(old(a[..]), Geometry(containerWidth, wordHeight, wordGap, lineGap, rtl))
  {
    ghost var g := Geometry(containerWidth, wordHeight, wordGap, lineGap, rtl);
    ghost var s := a[..];
    var offsets := Sentence(a[..]);
    SentenceIndices(s);
    ghost var ws := Widths(s, offsets);
    PlacedAll(s, g);
    if |offsets| == 0 {
      PlacedNone(s, offsets, ws, g);
      return;
    }
    PlaceAll(a, offsets, containerWidth, wordHeight, wordGap, lineGap, rtl, s, ws);
  }

  /** The loop of `calculateLayout`: place the words rank by rank. */
  method PlaceAll(a: array<Offset>, offsets: seq<nat>,
                  containerWidth: real, wordHeight: real, wordGap: real, lineGap: real, rtl: bool,
                  ghost s: seq<Offset>, ghost ws: seq<real>)
    requires Distinct(offsets) && |s| == a.Length && a[..] == s
    requires forall k :: 0 <= k < |offsets| ==> offsets[k] < |s|
    requires ws == Widths(s, offsets)
    modifies a
    ensures a[..] == Placed(s, offsets, ws, Geometry(containerWidth, wordHeight, wordGap, lineGap, rtl), |offsets|)
  {
    ghost var g := Geometry(containerWidth, wordHeight, wordGap, lineGap, rtl);
    PlacedNone(s, offsets, ws, g);
    var lineNumber: nat := 0;
    var lineBreak: nat := 0;
    for i := 0 to |offsets|
      invariant Cursor(lineNumber, lineBreak) == CursorAfter(ws, g, i)
      invariant a[..] == Placed(s, offsets, ws, g, i)
    {
      lineNumber, lineBreak := PlaceNext(a, offsets, i, lineNumber, lineBreak, containerWidth, wordHeight, wordGap,
                                         lineGap, rtl, s, ws);
    }
  }

  /** One turn of `calculateLayout`'s loop: place the word of rank i and move
      the cursor past it. */
  method PlaceNext(a: array<Offset>, offsets: seq<nat>, i: nat, lineNumber: nat, lineBreak: nat,
                   containerWidth: real, wordHeight: real, wordGap: real, lineGap: real, rtl: bool,
                   ghost s: seq<Offset>, ghost ws: seq<real>)
    returns (lineNumber': nat, lineBreak': nat)
    requires i < |offsets| && Distinct(offsets) && |s| == a.Length
    requires forall k :: 0 <= k < |offsets| ==> offsets[k] < |s|
    requires ws == Widths(s, offsets)
    requires var g := Geometry(containerWidth, wordHeight, wordGap, lineGap, rtl);
      && Cursor(lineNumber, lineBreak) == CursorAfter(ws, g, i)
      && a[..] == Placed(s, offsets, ws, g, i)
    modifies a
    ensures var g := Geometry(containerWidth, wordHeight, wordGap, lineGap, rtl);
      && Cursor(lineNumber', lineBreak') == CursorAfter(ws, g, i + 1)
      && a[..] == Placed(s, offsets, ws, g, i + 1)
  {
    ghost var g := Geometry(containerWidth, wordHeight, wordGap, lineGap, rtl);
    var offset := offsets[i];
    PlacedStep(s, offsets, ws, g, i);
    PlacedWidths(s, offsets, ws, g, i);
    var total := SumRun(a, offsets, lineBreak, i, wordGap);
    var o := a[offset];
    var x: real;
    lineNumber', lineBreak' := lineNumber, lineBreak;
    if total + o.width > containerWidth {
      lineNumber' := lineNumber + 1;
      lineBreak' := i;
      x := if rtl then containerWidth - o.width else 0.0;
    } else {
      x := if rtl then containerWidth - total - o.width else total;
    }
    CursorStep(ws, containerWidth, wordHeight, wordGap, lineGap, rtl, i, total, o, x, lineNumber', lineBreak');
    a[offset] := o.(x := x, y := (wordHeight + lineGap) * lineNumber' as real + lineGap / 2.0);
  }

  // ---------------------------------------------------------------------------
  // What the layout promises

  /** `calculateLayout` writes `x` and `y` only, only of answered words: the
      orders, and so the sentence, are unchanged. */
  lemma LaidOutFrame(s: seq<Offset>, g: Geometry)
    ensures Orders(LaidOut(s, g)) == Orders(s)
    ensures Sentence(LaidOut(s, g)) == Sentence(s)
    ensures forall j :: 0 <= j < |s| ==>
      LaidOut(s, g)[j] == s[j].(x := LaidOut(s, g)[j].x, y := LaidOut(s, g)[j].y)
    ensures forall j :: 0 <= j < |s| && s[j].order == InBank ==> LaidOut(s, g)[j] == s[j]
  {
    var l := Sentence(s);
    var r := LaidOut(s, g);
    SentenceIndices(s);
    RankedFacts(Orders(s), InBank);
    forall j | 0 <= j < |s|
      ensures r[j] == s[j].(x := r[j].x, y := r[j].y)
      ensures s[j].order == InBank ==> r[j] == s[j]
    {
      if j in l {
        var p := Place(s[j], Widths(s, l), g, IndexOf(l, j));
        assert r[j] == p;
        assert p == s[j].(x := p.x, y := p.y);
      } else {
        assert r[j] == s[j];
      }
    }
    assert Orders(r) == Orders(s);
  }

  /** Laying out twice is laying out once: the positions depend only on the
      orders and widths, which the layout does not touch. */
  lemma LayoutIdempotent(s: seq<Offset>, g: Geometry)
    ensures LaidOut(LaidOut(s, g), g) == LaidOut(s, g)
  {
    var r := LaidOut(s, g);
    var l := Sentence(s);
    LaidOutFrame(s, g);
    SentenceIndices(s);
    assert Widths(r, l) == Widths(s, l);
  }

  /** With no answered word, `calculateLayout` returns before writing. */
  lemma NoAnsweredNoLayout(s: seq<Offset>, g: Geometry)
    requires forall j :: 0 <= j < |s| ==> s[j].order == InBank
    ensures LaidOut(s, g) == s
  {
    LaidOutFrame(s, g);
  }

  /** With dense ranks, the word of order k is placed as rank k. */
  lemma LaidOutByOrder(s: seq<Offset>, g: Geometry, w: nat)
    requires DenseRanks(Orders(s)) && w < |s| && s[w].order != InBank
    ensures s[w].order < |Sentence(s)|
    ensures LaidOut(s, g)[w] == Place(s[w], Widths(s, Sentence(s)), g, s[w].order)
  {
    DenseOrderIsPosition(s, w);
    LaidOutAt(s, g, w);
  }

  lemma LaidOutAt(s: seq<Offset>, g: Geometry, w: nat)
    requires w < |s| && w in Sentence(s)
    ensures LaidOut(s, g)[w] == Place(s[w], Widths(s, Sentence(s)), g, IndexOf(Sentence(s), w))
  {
    var l := Sentence(s);
    SentenceIndices(s);
    var r := LaidOut(s, g);
    var p := Place(s[w], Widths(s, l), g, IndexOf(l, w));
    assert r[w] == p;
  }

  /** The first word of its line: the first word of all, or one whose line
      differs from the previous word's. */
  predicate FirstOnLine(ws: seq<real>, g: Geometry, k: nat)
    requires k < |ws|
  {
    k == 0 || LineOf(ws, g, k) != LineOf(ws, g, k - 1)
  }

  lemma LineStep(ws: seq<real>, g: Geometry, k: nat)
    requires 0 < k < |ws|
    ensures LineOf(ws, g, k) == LineOf(ws, g, k - 1) || LineOf(ws, g, k) == LineOf(ws, g, k - 1) + 1
    ensures FirstOnLine(ws, g, k) <==> CursorAfter(ws, g, k + 1).lineBreak == k
  {
  }

  /** Lines only go down, one at a time: no line between two words is skipped. */
  lemma {:induction false} LinesMonotone(ws: seq<real>, g: Geometry, i: nat, k: nat)
    requires i <= k < |ws|
    ensures LineOf(ws, g, i) <= LineOf(ws, g, k) <= LineOf(ws, g, i) + (k - i)
    decreases k - i
  {
    if i < k {
      LinesMonotone(ws, g, i, k - 1);
      LineStep(ws, g, k);
    }
  }

  /** Consecutive words are on the same line or on adjacent lines. */
  lemma YSteps(ws: seq<real>, g: Geometry, k: nat)
    requires 0 < k < |ws|
    ensures YAt(ws, g, k) == YAt(ws, g, k - 1) || YAt(ws, g, k) == YAt(ws, g, k - 1) + g.wordHeight + g.lineGap
  {
    LineStep(ws, g, k);
  }

  /** The first word starts at 0, on line 0 if it fits and on line 1 if it is
      wider than the container (line 0 is then left empty). */
  lemma FirstWord(ws: seq<real>, g: Geometry)
    requires 0 < |ws| && !g.rtl
    ensures XAt(ws, g, 0) == 0.0
    ensures LineOf(ws, g, 0) == if ws[0] > g.containerWidth then 1 else 0
  {
  }

  /** Left to right, a word starts where the run of its line before it ends. */
  lemma LtrX(ws: seq<real>, g: Geometry, k: nat)
    requires k < |ws| && !g.rtl
    ensures XAt(ws, g, k) == RunWidth(ws, CursorAfter(ws, g, k + 1).lineBreak, k, g.wordGap)
  {
  }

  /** The one-pass reading of the loop, left to right: a word goes half a gap
      after the previous one, unless that would cross the container's right
      edge, in which case it starts a new line at 0. */
  lemma NextWordLtr(ws: seq<real>, g: Geometry, k: nat)
    requires 0 < k < |ws| && !g.rtl
    ensures FirstOnLine(ws, g, k) <==>
      XAt(ws, g, k - 1) + ws[k - 1] + g.wordGap / 2.0 + ws[k] > g.containerWidth
    ensures FirstOnLine(ws, g, k) ==> XAt(ws, g, k) == 0.0
    ensures !FirstOnLine(ws, g, k) ==> XAt(ws, g, k) == XAt(ws, g, k - 1) + ws[k - 1] + g.wordGap / 2.0
  {
    LtrX(ws, g, k - 1);
    LineStep(ws, g, k);
  }

  /** Only the first word of a line may reach past the right edge. */
  lemma FitsUnlessFirst(ws: seq<real>, g: Geometry, k: nat)
    requires k < |ws| && !g.rtl && !FirstOnLine(ws, g, k)
    ensures XAt(ws, g, k) + ws[k] <= g.containerWidth
  {
    LineStep(ws, g, k);
  }

  lemma {:induction false} RunWidthNonNegative(ws: seq<real>, lo: nat, hi: nat, gap: real)
    requires lo <= hi <= |ws| && gap >= 0.0
    requires forall j :: lo <= j < hi ==> ws[j] >= 0.0
    ensures RunWidth(ws, lo, hi, gap) >= 0.0
    decreases hi
  {
    if hi > lo {
      RunWidthNonNegative(ws, lo, hi - 1, gap);
    }
  }

  /** When every word fits the container on its own, every word lies inside
      it, in either direction. */
  lemma WithinContainer(ws: seq<real>, g: Geometry, k: nat)
    requires k < |ws| && g.wordGap >= 0.0
    requires forall j :: 0 <= j < |ws| ==> 0.0 <= ws[j] <= g.containerWidth
    ensures 0.0 <= XAt(ws, g, k) && XAt(ws, g, k) + ws[k] <= g.containerWidth
  {
    var c := CursorAfter(ws, g, k);
    RunWidthNonNegative(ws, c.lineBreak, k, g.wordGap);
  }

  /** The line breaks do not depend on the direction. */
  lemma {:induction false} CursorIgnoresRtl(ws: seq<real>, g: Geometry, rtl: bool, i: nat)
    requires i <= |ws|
    ensures CursorAfter(ws, g.(rtl := rtl), i) == CursorAfter(ws, g, i)
  {
    if i > 0 {
      CursorIgnoresRtl(ws, g, rtl, i - 1);
    }
  }

  /** Right to left is the mirror image of left to right: same lines, and a
      word's right edge lies as far from the container's right edge as its
      left edge would lie from the left one. */
  lemma RtlMirrors(ws: seq<real>, g: Geometry, k: nat)
    requires k < |ws|
    ensures LineOf(ws, g.(rtl := true), k) == LineOf(ws, g.(rtl := false), k)
    ensures YAt(ws, g.(rtl := true), k) == YAt(ws, g.(rtl := false), k)
    ensures XAt(ws, g.(rtl := true), k) == g.containerWidth - XAt(ws, g.(rtl := false), k) - ws[k]
  {
    var gl, gr := g.(rtl := false), g.(rtl := true);
    assert gl.(rtl := true) == gr;
    CursorIgnoresRtl(ws, gl, true, k);
    CursorIgnoresRtl(ws, gl, true, k + 1);
    MirrorY(gl, gr, LineOf(ws, gl, k));
  }

  lemma MirrorY(gl: Geometry, gr: Geometry, line: nat)
    requires gl.wordHeight == gr.wordHeight && gl.lineGap == gr.lineGap
    ensures LineY(gl, line) == LineY(gr, line)
  {
  }

  /** A lone answered word that fits sits on the first line, half a line gap
      down, at the left edge, or at the right edge when right to left. */
  lemma LoneWordLaidOut(s: seq<Offset>, g: Geometry)
    requires |s| == 1 && s[0].order == 0 && s[0].width <= g.containerWidth
    ensures LaidOut(s, g)[0] == s[0].(x := if g.rtl then g.containerWidth - s[0].width else 0.0, y := g.lineGap / 2.0)
  {
    LoneWordAt(s, g);
    FirstWordPlace([s[0].width], g);
  }

  lemma LoneWordAt(s: seq<Offset>, g: Geometry)
    requires |s| == 1 && s[0].order == 0
    ensures LaidOut(s, g)[0] == Place(s[0], [s[0].width], g, 0)
  {
    LoneSentence(s);
    OnlyWordAt(s, g);
  }

  /** A sentence of record 0 alone places record 0 as the first word. */
  lemma OnlyWordAt(s: seq<Offset>, g: Geometry)
    requires 0 < |s| && Sentence(s) == [0]
    ensures LaidOut(s, g)[0] == Place(s[0], [s[0].width], g, 0)
  {
    var l := Sentence(s);
    LaidOutAt(s, g, 0);
    assert IndexOf(l, 0) == 0;
    var ws := Widths(s, l);
    assert |ws| == 1 && ws[0] == s[0].width;
    assert ws == [s[0].width];
  }

  lemma LoneSentence(s: seq<Offset>)
    requires |s| == 1 && s[0].order == 0
    ensures Sentence(s) == [0]
  {
    var os := Orders(s);
    assert os == [0];
    assert Candidates(os, InBank, 1) == [0];
    assert DenseRanks(os);
    DenseSentenceUnique(os, [0]);
  }

  /** The first word, when it fits, sits on the first line, half a line gap
      down, at the left edge, or at the right edge when right to left. */
  lemma FirstWordPlace(ws: seq<real>, g: Geometry)
    requires 0 < |ws| && ws[0] <= g.containerWidth
    ensures XAt(ws, g, 0) == if g.rtl then g.containerWidth - ws[0] else 0.0
    ensures YAt(ws, g, 0) == g.lineGap / 2.0
  {
    assert CursorAfter(ws, g, 1) == Cursor(0, 0);
    LineYOf(g.containerWidth, g.wordHeight, g.wordGap, g.lineGap, g.rtl, 0);
  }

  /** Four words 50 wide, a gap of 4 and a container 110 wide: two lines of
      two, the second word of each 52 from the left. */
  lemma LayoutExample()
    ensures var ws, g := [50.0, 50.0, 50.0, 50.0], Geometry(110.0, 45.0, 4.0, 9.0, false);
      && XAt(ws, g, 0) == 0.0 && XAt(ws, g, 1) == 52.0 && XAt(ws, g, 2) == 0.0 && XAt(ws, g, 3) == 52.0
      && YAt(ws, g, 0) == 4.5 && YAt(ws, g, 1) == 4.5 && YAt(ws, g, 2) == 58.5 && YAt(ws, g, 3) == 58.5
  {
    var ws, g := [50.0, 50.0, 50.0, 50.0], Geometry(110.0, 45.0, 4.0, 9.0, false);
    assert CursorAfter(ws, g, 1) == Cursor(0, 0);
    assert CursorAfter(ws, g, 2) == Cursor(0, 0);
    assert RunWidth(ws, 0, 2, 4.0) == 104.0;
    assert CursorAfter(ws, g, 3) == Cursor(1, 2);
    assert CursorAfter(ws, g, 4) == Cursor(1, 2);
  }
}
