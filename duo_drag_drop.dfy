/** src/DuoDragDrop.tsx: the container. The parts modelled are its derived
    sizes, the seeding its measuring pass (`ComputeWordLayout`) performs once
    every word has been measured, and the four calls of its imperative
    handle. Rendering is not modelled. */
module Duo {
  import opened Wrappers
  import opened Redash
  import opened Ranking
  import opened Layout
  import opened Sortable

  // ---------------------------------------------------------------------------
  // Derived sizes

  /** `props.lineHeight || wordHeight * 1.2`: an absent or zero line height
      falls back to 1.2 word heights. */
  function LineHeight(lineHeightProp: Option<real>, wordHeight: real): real {
    match lineHeightProp
    case Some(h) => if h != 0.0 then h else wordHeight * 1.2
    case None => wordHeight * 1.2
  }

  function LineGap(lineHeight: real, wordHeight: real): real {
    lineHeight - wordHeight
  }

  /** One spare line while there are fewer than three: a sentence may wrap
      onto one more line than the bank had. */
  function IdealNumLines(numLines: nat): nat {
    if numLines < 3 then numLines + 1 else numLines
  }

  /** `idealNumLines * lineHeight || lineHeight`. */
  function LinesContainerHeight(numLines: nat, lineHeight: real): real {
    var h := IdealNumLines(numLines) as real * lineHeight;
    if h != 0.0 then h else lineHeight
  }

  /** Without a line height the gap between lines is a fifth of a word. */
  lemma DefaultLineGap(lineHeightProp: Option<real>, wordHeight: real)
    requires lineHeightProp.None? || lineHeightProp.value == 0.0
    ensures LineGap(LineHeight(lineHeightProp, wordHeight), wordHeight) == wordHeight / 5.0
  {
  }

  lemma IdealNumLinesBounds(numLines: nat)
    ensures 1 <= IdealNumLines(numLines)
    ensures numLines <= IdealNumLines(numLines) <= numLines + 1
    ensures IdealNumLines(numLines) == numLines <==> numLines >= 3
  {
  }

  /** The fallback of `linesContainerHeight` never changes its value: at
      least one line is always counted, so the product is 0 only when the line
      height is. */
  lemma ContainerFallbackIsDead(numLines: nat, lineHeight: real)
    ensures LinesContainerHeight(numLines, lineHeight) == IdealNumLines(numLines) as real * lineHeight
  {
    var n := IdealNumLines(numLines) as real;
    if n * lineHeight == 0.0 {
      assert n >= 1.0;
      if lineHeight != 0.0 {
        assert lineHeight > 0.0 || lineHeight < 0.0;
        if lineHeight > 0.0 {
          assert n * lineHeight >= lineHeight;
        } else {
          assert n * lineHeight <= lineHeight;
        }
      }
    }
  }

  // ---------------------------------------------------------------------------
  // Seeding from the measurements

  /** A measured layout rectangle. */
  datatype Rect = Rect(x: real, y: real, width: real, height: real)

  /** A placeholder's absolute style. */
  datatype Placeholder = Placeholder(top: real, left: real, width: real, height: real)

  /** The distinct rows among the first n measurements. */
  function Rows(m: map<nat, Rect>, n: nat): set<real> {
    set k: nat | k < n && k in m :: m[k].y
  }

  /** One record after seeding: in the bank, with its measured width and its
      measured place, pushed below the lines. */
  function SeedOne(o: Offset, r: Rect, linesHeight: real, wordBankOffsetY: real): Offset {
    o.(order := InBank, width := r.width, originalX := r.x, originalY := r.y + linesHeight + wordBankOffsetY)
  }

  /** The records after seeding: every measured word is seeded. */
  function Seeded(s: seq<Offset>, m: map<nat, Rect>, linesHeight: real, wordBankOffsetY: real): (r: seq<Offset>)
    ensures |r| == |s|
  {
    seq(|s|, j requires 0 <= j < |s| => if j in m then SeedOne(s[j], m[j], linesHeight, wordBankOffsetY) else s[j])
  }

  lemma SeededAt(s: seq<Offset>, m: map<nat, Rect>, linesHeight: real, wordBankOffsetY: real)
    ensures forall j :: 0 <= j < |s| ==>
      Seeded(s, m, linesHeight, wordBankOffsetY)[j] == if j in m then SeedOne(s[j], m[j], linesHeight, wordBankOffsetY) else s[j]
  {
  }

  /** The placeholder drawn where a bank word rests, a gap in from each side. */
  function PlaceholderOf(r: Rect, linesHeight: real, wordHeight: real, wordGap: real, wordBankOffsetY: real): Placeholder {
    Placeholder(r.y + linesHeight + wordBankOffsetY * 2.0, r.x + wordGap, r.width - wordGap * 2.0, wordHeight)
  }

  /** A set of nats below n has at most n elements. */
  lemma {:induction false} CardAtMost(keys: set<nat>, n: nat)
    requires forall k :: k in keys ==> k < n
    ensures |keys| <= n
  {
    if n == 0 {
      assert keys == {};
    } else {
      CardAtMost(keys - {n - 1}, n - 1);
    }
  }

  /** ... and fewer when one of them is missing. */
  lemma {:induction false} CardBelow(keys: set<nat>, n: nat, missing: nat)
    requires forall k :: k in keys ==> k < n
    requires missing < n && missing !in keys
    ensures |keys| < n
  {
    var rest := keys - {n - 1};
    if missing == n - 1 {
      assert rest == keys;
      CardAtMost(rest, n - 1);
    } else {
      CardBelow(rest, n - 1, missing);
    }
  }

  /** A map over nats below n with n keys has every one of them. */
  lemma AllMeasured(m: map<nat, Rect>, n: nat)
    requires forall k :: k in m ==> k < n
    requires |m| == n
    ensures forall k: nat :: k < n ==> k in m
  {
    forall k: nat | k < n ensures k in m {
      if k !in m {
        CardBelow(m.Keys, n, k);
      }
    }
  }

  /** Right after seeding every measured word is in the bank: the sentence is
      empty and the ranks trivially dense. */
  lemma SeededAllInBank(s: seq<Offset>, m: map<nat, Rect>, linesHeight: real, wordBankOffsetY: real)
    requires forall k: nat :: k < |s| ==> k in m
    ensures LastOrder(Seeded(s, m, linesHeight, wordBankOffsetY)) == 0
    ensures DenseRanks(Orders(Seeded(s, m, linesHeight, wordBankOffsetY)))
    ensures Sentence(Seeded(s, m, linesHeight, wordBankOffsetY)) == []
  {
    var r := Seeded(s, m, linesHeight, wordBankOffsetY);
    var os := Orders(r);
    assert forall j :: 0 <= j < |os| ==> os[j] == InBank;
    NoCandidates(os, |os|);
  }

  /** With every word in the bank there is nothing to rank. */
  lemma {:induction false} NoCandidates(os: seq<int>, n: nat)
    requires n <= |os| && forall j :: 0 <= j < |os| ==> os[j] == InBank
    ensures Candidates(os, InBank, n) == []
  {
    if n > 0 { NoCandidates(os, n - 1); }
  }

  /** A seeded bank word rests exactly on its placeholder: at its top, a gap to
      the left of its left edge. */
  lemma PlaceholderUnderRestingWord(s: seq<Offset>, m: map<nat, Rect>, j: nat, linesHeight: real,
                                    wordHeight: real, wordGap: real, wordBankOffsetY: real)
    requires j < |s| && j in m
    ensures var o := Seeded(s, m, linesHeight, wordBankOffsetY)[j];
      var ph := PlaceholderOf(m[j], linesHeight, wordHeight, wordGap, wordBankOffsetY);
      && Resting(o, wordBankOffsetY) == (ph.left - wordGap, ph.top)
      && o.width == ph.width + 2.0 * wordGap
  {
  }

  /** A word measured at or below the top, seeded with a non-negative bank
      offset, rests below the lines: a gesture that has not moved it leaves
      the records as they are. */
  lemma RestingBankWordStays(s: seq<Offset>, m: map<nat, Rect>, j: nat, numLines: nat, lineHeight: real, p: Props,
                             g: Geometry)
    requires j < |s| && j in m && m[j].y >= 0.0 && p.wordBankOffsetY >= 0.0
    requires p.linesHeight == LinesContainerHeight(numLines, lineHeight)
    ensures var r := Seeded(s, m, IdealNumLines(numLines) as real * lineHeight, p.wordBankOffsetY);
      ZoneChanged(r, j, Resting(r[j], p.wordBankOffsetY).1, p, g) == r
  {
    ContainerFallbackIsDead(numLines, lineHeight);
  }

  class ComputeWordLayout {
    const offsets: array<Offset>
    const wordHeight: real
    const lineHeight: real
    const wordGap: real
    const wordBankOffsetY: real
    /** The rectangles measured so far, by word index. */
    var calculatedOffsets: map<nat, Rect>
    /** The placeholder styles, by word index. */
    var offsetStyles: map<nat, Placeholder>

    ghost predicate Valid()
      reads this
    {
      forall k :: k in calculatedOffsets ==> k < offsets.Length
    }

    constructor(offsets: array<Offset>, wordHeight: real, lineHeight: real, wordGap: real, wordBankOffsetY: real)
      ensures Valid()
      ensures this.offsets == offsets && this.wordHeight == wordHeight && this.lineHeight == lineHeight
      ensures this.wordGap == wordGap && this.wordBankOffsetY == wordBankOffsetY
      ensures calculatedOffsets == map[] && offsetStyles == map[]
    {
      this.offsets := offsets;
      this.wordHeight := wordHeight;
      this.lineHeight := lineHeight;
      this.wordGap := wordGap;
      this.wordBankOffsetY := wordBankOffsetY;
      calculatedOffsets := map[];
      offsetStyles := map[];
    }

    /** The height of the lines for `numLines` distinct measured rows. */
    function LinesHeight(numLines: nat): real
      reads this
    {
      IdealNumLines(numLines) as real * lineHeight
    }

    /** A child's `onLayout`: record its rectangle; once every child has been
        measured, seed every record and placeholder and report the number of
        rows (which the source hands to `onLayout` 16 ms later). */
    method OnChildLayout(index: nat, r: Rect) returns (reported: Option<nat>)
      requires Valid() && index < offsets.Length
      modifies this, offsets
      ensures Valid()
      ensures calculatedOffsets == old(calculatedOffsets)[index := r]
      ensures reported.Some? <==> |calculatedOffsets| == offsets.Length
      ensures reported.Some? ==> forall k: nat :: k < offsets.Length ==> k in calculatedOffsets
      ensures reported.Some? ==> reported.value == |Rows(calculatedOffsets, offsets.Length)|
      ensures reported.Some? ==>
        offsets[..] == Seeded(old(offsets[..]), calculatedOffsets, LinesHeight(reported.value), wordBankOffsetY)
      ensures reported.Some? ==>
        offsetStyles == old(offsetStyles) + Placeholders(calculatedOffsets, LinesHeight(reported.value),
                                                         wordHeight, wordGap, wordBankOffsetY, offsets.Length)
      ensures reported.None? ==> offsets[..] == old(offsets[..]) && offsetStyles == old(offsetStyles)
    {
      calculatedOffsets := calculatedOffsets[index := r];
      if |calculatedOffsets| != offsets.Length {
        return None;
      }
      AllMeasured(calculatedOffsets, offsets.Length);
      var rows := CountRows();
      var numLinesSize := if rows < 3 then rows + 1 else rows;
      var linesHeight := numLinesSize as real * lineHeight;
      assert linesHeight == LinesHeight(rows);
      Seed(linesHeight);
      return Some(rows);
    }

    /** The size of the set of measured `y` values. */
    method CountRows() returns (rows: nat)
      requires forall k: nat :: k < offsets.Length ==> k in calculatedOffsets
      ensures rows == |Rows(calculatedOffsets, offsets.Length)|
    {
      var numLines: set<real> := {};
      for i := 0 to offsets.Length
        invariant numLines == Rows(calculatedOffsets, i)
      {
        assert Rows(calculatedOffsets, i + 1) == Rows(calculatedOffsets, i) + {calculatedOffsets[i].y};
        numLines := numLines + {calculatedOffsets[i].y};
      }
      rows := |numLines|;
    }

    /** The seeding loop: every measured word goes to the bank, and its
        placeholder is drawn under it. */
    method Seed(linesHeight: real)
      requires forall k: nat :: k < offsets.Length ==> k in calculatedOffsets
      modifies this`offsetStyles, offsets
      ensures offsets[..] == Seeded(old(offsets[..]), calculatedOffsets, linesHeight, wordBankOffsetY)
      ensures offsetStyles == old(offsetStyles) + Placeholders(calculatedOffsets, linesHeight, wordHeight, wordGap,
                                                               wordBankOffsetY, offsets.Length)
    {
      ghost var s := offsets[..];
      ghost var styles := offsetStyles;
      for i := 0 to offsets.Length
        invariant forall j :: 0 <= j < offsets.Length ==>
          offsets[j] == if j < i then SeedOne(s[j], calculatedOffsets[j], linesHeight, wordBankOffsetY) else s[j]
        invariant offsetStyles == styles + Placeholders(calculatedOffsets, linesHeight, wordHeight, wordGap,
                                                        wordBankOffsetY, i)
      {
        PlaceholdersStep(calculatedOffsets, linesHeight, wordHeight, wordGap, wordBankOffsetY, i);
        MergeUpdate(styles, Placeholders(calculatedOffsets, linesHeight, wordHeight, wordGap, wordBankOffsetY, i), i,
                    PlaceholderOf(calculatedOffsets[i], linesHeight, wordHeight, wordGap, wordBankOffsetY));
        SeedWord(i, linesHeight);
      }
      SeededAt(s, calculatedOffsets, linesHeight, wordBankOffsetY);
    }

    /** One turn of the seeding loop. */
    method SeedWord(i: nat, linesHeight: real)
      requires i < offsets.Length && i in calculatedOffsets
      modifies this`offsetStyles, offsets
      ensures offsets[..] == old(offsets[..])[i := SeedOne(old(offsets[i]), calculatedOffsets[i], linesHeight, wordBankOffsetY)]
      ensures offsetStyles == old(offsetStyles)[i := PlaceholderOf(calculatedOffsets[i], linesHeight, wordHeight, wordGap,
                                                                    wordBankOffsetY)]
    {
      var m := calculatedOffsets[i];
      offsets[i] := offsets[i].(order := InBank, width := m.width, originalX := m.x,
                                originalY := m.y + linesHeight + wordBankOffsetY);
      offsetStyles := offsetStyles[i := Placeholder(m.y + linesHeight + wordBankOffsetY * 2.0, m.x + wordGap,
                                                    m.width - wordGap * 2.0, wordHeight)];
    }
  }

  /** The placeholder styles of the measured words below n. */
  function Placeholders(m: map<nat, Rect>, linesHeight: real, wordHeight: real, wordGap: real,
                        wordBankOffsetY: real, n: nat): map<nat, Placeholder>
  {
    map k | k in m && k < n :: PlaceholderOf(m[k], linesHeight, wordHeight, wordGap, wordBankOffsetY)
  }

  lemma MergeUpdate<K, V>(a: map<K, V>, b: map<K, V>, k: K, v: V)
    ensures (a + b)[k := v] == a + b[k := v]
  {
  }

  lemma PlaceholdersStep(m: map<nat, Rect>, linesHeight: real, wordHeight: real, wordGap: real,
                         wordBankOffsetY: real, i: nat)
    requires i in m
    ensures Placeholders(m, linesHeight, wordHeight, wordGap, wordBankOffsetY, i + 1)
         == Placeholders(m, linesHeight, wordHeight, wordGap, wordBankOffsetY, i)[i :=
              PlaceholderOf(m[i], linesHeight, wordHeight, wordGap, wordBankOffsetY)]
  {
  }

  // ---------------------------------------------------------------------------
  // The imperative handle

  /** The words at the indices l lists. */
  function WordsOf(words: seq<string>, l: seq<nat>): (r: seq<string>)
    requires forall k :: 0 <= k < |l| ==> l[k] < |words|
    ensures |r| == |l|
  {
    seq(|l|, k requires 0 <= k < |l| => words[l[k]])
  }

  /** The bank words below n, by index. */
  function BankIndices(os: seq<int>, n: nat): (b: seq<nat>)
    requires n <= |os|
    ensures forall k :: 0 <= k < |b| ==> b[k] < n
  {
    if n == 0 then []
    else BankIndices(os, n - 1) + (if os[n - 1] == InBank then [n - 1] else [])
  }

  /** The records after `setOffsets(a)`'s loop: order i becomes a[i]. */
  function Assigned(s: seq<Offset>, a: seq<int>): (r: seq<Offset>)
    ensures |r| == |s|
  {
    seq(|s|, j requires 0 <= j < |s| => if j < |a| then s[j].(order := a[j]) else s[j])
  }

  class DuoDragDrop {
    const words: seq<string>
    const offsets: array<Offset>
    const wordHeight: real
    const wordGap: real
    const lineHeight: real
    const rtl: bool
    var containerWidth: real

    ghost predicate Valid()
      reads this
    {
      |words| == offsets.Length
    }

    /** One record per word, every field 0 (so every word starts at order 0). */
    constructor(words: seq<string>, wordHeight: real, wordGap: real, lineHeightProp: Option<real>, rtl: bool)
      ensures Valid() && fresh(offsets)
      ensures this.words == words && this.wordHeight == wordHeight && this.wordGap == wordGap && this.rtl == rtl
      ensures lineHeight == LineHeight(lineHeightProp, wordHeight) && containerWidth == 0.0
      ensures forall j :: 0 <= j < offsets.Length ==> offsets[j] == Offset(0, 0.0, 0.0, 0.0, 0.0, 0.0, 0.0)
    {
      this.words := words;
      this.wordHeight := wordHeight;
      this.wordGap := wordGap;
      this.rtl := rtl;
      lineHeight := LineHeight(lineHeightProp, wordHeight);
      containerWidth := 0.0;
      offsets := new Offset[|words|](_ => Offset(0, 0.0, 0.0, 0.0, 0.0, 0.0, 0.0));
    }

    /** The arguments the container passes to `calculateLayout`. */
    function ContainerGeometry(): Geometry
      reads this
    {
      Geometry(containerWidth, wordHeight, wordGap, LineGap(lineHeight, wordHeight), rtl)
    }

    /** The props each word receives: the derived lines height and line gap
        and the container's own sizes. A word's gestures then lay the
        sentence out exactly as the container does. */
    function WordProps(numLines: nat, wordBankOffsetY: real): (p: Props)
      reads this
      ensures p.linesHeight == LinesContainerHeight(numLines, lineHeight)
      ensures GestureGeometry(p) == ContainerGeometry()
    {
      Props(containerWidth, rtl, LinesContainerHeight(numLines, lineHeight), wordHeight, wordGap,
            LineGap(lineHeight, wordHeight), wordBankOffsetY)
    }

    method GetWords() returns (answered: seq<string>, bank: seq<string>)
      requires Valid()
      ensures forall k :: 0 <= k < |Sentence(offsets[..])| ==> Sentence(offsets[..])[k] < |words|
      ensures answered == WordsOf(words, Sentence(offsets[..]))
      ensures bank == WordsOf(words, BankIndices(Orders(offsets[..]), offsets.Length))
    {
      ghost var os := Orders(offsets[..]);
      var answeredWords: seq<nat> := [];
      var bankWords: seq<nat> := [];
      for i := 0 to offsets.Length
        invariant answeredWords == Candidates(os, InBank, i)
        invariant bankWords == BankIndices(os, i)
      {
        if offsets[i].order != InBank {
          answeredWords := answeredWords + [i];
        } else {
          bankWords := bankWords + [i];
        }
      }
      RankedFacts(os, InBank);
      BankSortIsIdentity(os, offsets.Length);
      answered := WordsOf(words, SortByOrder(Orders(offsets[..]), answeredWords));
      bank := WordsOf(words, SortByOrder(Orders(offsets[..]), bankWords));
    }

    method GetAnsweredWords() returns (answered: seq<string>)
      requires Valid()
      ensures forall k :: 0 <= k < |Sentence(offsets[..])| ==> Sentence(offsets[..])[k] < |words|
      ensures answered == WordsOf(words, Sentence(offsets[..]))
    {
      ghost var os := Orders(offsets[..]);
      var answeredWords: seq<nat> := [];
      for i := 0 to offsets.Length
        invariant answeredWords == Candidates(os, InBank, i)
      {
        if offsets[i].order != InBank {
          answeredWords := answeredWords + [i];
        }
      }
      RankedFacts(os, InBank);
      answered := WordsOf(words, SortByOrder(Orders(offsets[..]), answeredWords));
    }

    method GetOffsets() returns (orders: seq<int>)
      ensures orders == Orders(offsets[..])
    {
      orders := seq(offsets.Length, i requires 0 <= i < offsets.Length reads offsets => offsets[i].order);
    }

    /** `setOffsets(a)`: order i becomes a[i], with no check of the values;
        then the container's layout. An `a` longer than the word list makes
        the loop read past the records and throw: the orders written so far
        stay and the layout does not run (`ok` is false). */
    method SetOffsets(newOffsets: seq<int>) returns (ok: bool)
      modifies offsets
      ensures ok <==> |newOffsets| <= offsets.Length
      ensures ok ==> offsets[..] == LaidOut(Assigned(old(offsets[..]), newOffsets), ContainerGeometry())
      ensures !ok ==> offsets[..] == Assigned(old(offsets[..]), newOffsets)
    {
      ghost var s := offsets[..];
      for i := 0 to if |newOffsets| <= offsets.Length then |newOffsets| else offsets.Length
        invariant forall j :: 0 <= j < offsets.Length ==> offsets[j] == if j < i then s[j].(order := newOffsets[j]) else s[j]
      {
        offsets[i] := offsets[i].(order := newOffsets[i]);
      }
      assert offsets[..] == Assigned(s, newOffsets);
      if |newOffsets| > offsets.Length {
        return false;
      }
      CalculateLayout(offsets, containerWidth, wordHeight, wordGap, LineGap(lineHeight, wordHeight), rtl);
      return true;
    }
  }

  // ---------------------------------------------------------------------------
  // What the handle promises

  /** The bank list is in index order: sorting it by order changes nothing,
      since its orders are all -1 and the sort is stable. */
  lemma BankSortIsIdentity(os: seq<int>, n: nat)
    requires n <= |os|
    ensures SortByOrder(os, BankIndices(os, n)) == BankIndices(os, n)
  {
    var b := BankIndices(os, n);
    BankIncreasing(os, n);
    SortSorted(os, b);
    SortedUnique(os, SortByOrder(os, b), b);
  }

  lemma {:induction false} BankIncreasing(os: seq<int>, n: nat)
    requires n <= |os|
    ensures InBounds(os, BankIndices(os, n)) && SortedByOrder(os, BankIndices(os, n))
    ensures forall k :: 0 <= k < |BankIndices(os, n)| ==> os[BankIndices(os, n)[k]] == InBank
  {
    if n > 0 {
      BankIncreasing(os, n - 1);
    }
  }

  /** Two lists sorted by (order, index) with the same elements are equal. */
  lemma {:induction false} SortedUnique(os: seq<int>, a: seq<nat>, b: seq<nat>)
    requires InBounds(os, a) && InBounds(os, b) && SortedByOrder(os, a) && SortedByOrder(os, b)
    requires multiset(a) == multiset(b)
    ensures a == b
    decreases |a|
  {
    assert |a| == |multiset(a)| == |multiset(b)| == |b|;
    if |a| > 0 {
      SameHead(os, a, b);
      TailMultiset(a);
      TailMultiset(b);
      SortedTail(os, a);
      SortedTail(os, b);
      SortedUnique(os, a[1..], b[1..]);
      assert a == [a[0]] + a[1..] && b == [b[0]] + b[1..];
    }
  }

  /** Two sorted lists with the same elements start alike. */
  lemma SameHead(os: seq<int>, a: seq<nat>, b: seq<nat>)
    requires InBounds(os, a) && InBounds(os, b) && SortedByOrder(os, a) && SortedByOrder(os, b)
    requires multiset(a) == multiset(b) && |a| > 0 && |b| > 0
    ensures a[0] == b[0]
  {
    assert a[0] in multiset(b) && b[0] in multiset(a);
    SortedHead(os, a, b[0]);
    SortedHead(os, b, a[0]);
    BeforeAsymmetric(os, a[0], b[0]);
  }

  lemma BeforeAsymmetric(os: seq<int>, i: nat, j: nat)
    requires i < |os| && j < |os|
    ensures Before(os, i, j) ==> !Before(os, j, i)
  {
  }

  /** The head of a sorted list comes before every other element of it. */
  lemma SortedHead(os: seq<int>, a: seq<nat>, x: nat)
    requires InBounds(os, a) && SortedByOrder(os, a) && x in multiset(a)
    ensures x < |os| && |a| > 0 && (x == a[0] || Before(os, a[0], x))
  {
    var p :| 0 <= p < |a| && a[p] == x;
  }

  lemma TailMultiset(a: seq<nat>)
    requires |a| > 0
    ensures multiset(a[1..]) == multiset(a) - multiset{a[0]}
  {
    assert a == [a[0]] + a[1..];
  }

  /** `getWords().answered` is `getAnsweredWords()`, one word per answered
      record. */
  lemma AnsweredCount(s: seq<Offset>, words: seq<string>)
    requires |words| == |s|
    ensures forall k :: 0 <= k < |Sentence(s)| ==> Sentence(s)[k] < |words|
    ensures |WordsOf(words, Sentence(s))| == LastOrder(s)
  {
    RankedFacts(Orders(s), InBank);
  }

  /** With dense ranks, the k-th answered word is the word of order k. */
  lemma AnsweredByOrder(s: seq<Offset>, words: seq<string>, j: nat)
    requires |words| == |s| && DenseRanks(Orders(s)) && j < |s| && s[j].order != InBank
    ensures forall k :: 0 <= k < |Sentence(s)| ==> Sentence(s)[k] < |words|
    ensures s[j].order < |Sentence(s)| && WordsOf(words, Sentence(s))[s[j].order] == words[j]
  {
    RankedFacts(Orders(s), InBank);
    DenseOrderIsPosition(s, j);
  }

  /** The indices 0 .. n-1, in order. */
  function Iota(n: nat): (r: seq<nat>)
    ensures |r| == n
  {
    if n == 0 then [] else Iota(n - 1) + [n - 1]
  }

  lemma {:induction false} IotaAt(n: nat)
    ensures forall k :: 0 <= k < n ==> Iota(n)[k] == k
  {
    if n > 0 { IotaAt(n - 1); }
  }

  /** Answered and bank indices below n together are every index below n,
      each once. */
  ghost predicate SplitBelow(os: seq<int>, n: nat)
    requires n <= |os|
  {
    multiset(Candidates(os, InBank, n)) + multiset(BankIndices(os, n)) == multiset(Iota(n))
  }

  /** Answered and bank indices together are every index once. */
  lemma {:induction false} SplitIsPermutation(os: seq<int>, n: nat)
    requires n <= |os|
    ensures multiset(Candidates(os, InBank, n)) + multiset(BankIndices(os, n)) == multiset(Iota(n))
  {
    SplitHolds(os, n);
  }

  lemma {:induction false} SplitHolds(os: seq<int>, n: nat)
    requires n <= |os|
    ensures SplitBelow(os, n)
  {
    if n == 0 {
      assert Candidates(os, InBank, 0) == [] && BankIndices(os, 0) == [] && Iota(0) == [];
    } else {
      SplitHolds(os, n - 1);
      SplitStep(os, n);
    }
  }

  /** Index n-1 joins exactly one of the two lists. */
  lemma SplitStep(os: seq<int>, n: nat)
    requires 0 < n <= |os| && SplitBelow(os, n - 1)
    ensures SplitBelow(os, n)
  {
    var c, b, i := Candidates(os, InBank, n - 1), BankIndices(os, n - 1), Iota(n - 1);
    var x: nat := n - 1;
    assert Iota(n) == i + [x];
    AddOne(c, b, i, x);
    if os[n - 1] == InBank {
      assert Candidates(os, InBank, n) == c;
      assert BankIndices(os, n) == b + [x];
    } else {
      assert Candidates(os, InBank, n) == c + [x];
      assert BankIndices(os, n) == b;
    }
  }

  lemma AddOne<T>(c: seq<T>, b: seq<T>, i: seq<T>, x: T)
    requires multiset(c) + multiset(b) == multiset(i)
    ensures multiset(c + [x]) + multiset(b) == multiset(i + [x])
    ensures multiset(c) + multiset(b + [x]) == multiset(i + [x])
  {
  }

  /** Picking words by two index lists with the same elements picks the same
      words. */
  lemma {:induction false} WordsOfPermutation(words: seq<string>, l: seq<nat>, l': seq<nat>)
    requires forall k :: 0 <= k < |l| ==> l[k] < |words|
    requires forall k :: 0 <= k < |l'| ==> l'[k] < |words|
    requires multiset(l) == multiset(l')
    ensures multiset(WordsOf(words, l)) == multiset(WordsOf(words, l'))
    decreases |l|
  {
    if |l| > 0 {
      assert l[0] in multiset(l');
      var p :| 0 <= p < |l'| && l'[p] == l[0];
      var rest := Without(l', p);
      WithoutMultiset(l', p);
      TailMultiset(l);
      WordsOfPermutation(words, l[1..], rest);
      WordsOfHead(words, l);
      WordsOfWithout(words, l', p);
    }
  }

  lemma WordsOfHead(words: seq<string>, l: seq<nat>)
    requires |l| > 0 && forall k :: 0 <= k < |l| ==> l[k] < |words|
    ensures multiset(WordsOf(words, l)) == multiset{words[l[0]]} + multiset(WordsOf(words, l[1..]))
  {
    assert WordsOf(words, l) == [words[l[0]]] + WordsOf(words, l[1..]);
  }

  lemma WordsOfWithout(words: seq<string>, l: seq<nat>, p: nat)
    requires p < |l| && forall k :: 0 <= k < |l| ==> l[k] < |words|
    ensures multiset(WordsOf(words, l)) == multiset{words[l[p]]} + multiset(WordsOf(words, Without(l, p)))
  {
    var w := WordsOf(words, l);
    assert WordsOf(words, Without(l, p)) == Without(w, p);
    assert w == w[..p] + [w[p]] + w[p + 1..];
  }

  lemma WordsOfAll(words: seq<string>)
    ensures (forall k :: 0 <= k < |words| ==> Iota(|words|)[k] == k) && WordsOf(words, Iota(|words|)) == words
  {
    IotaAt(|words|);
  }

  lemma WordsOfConcat(words: seq<string>, l: seq<nat>, l': seq<nat>)
    requires forall k :: 0 <= k < |l| ==> l[k] < |words|
    requires forall k :: 0 <= k < |l'| ==> l'[k] < |words|
    ensures forall k :: 0 <= k < |l + l'| ==> (l + l')[k] < |words|
    ensures WordsOf(words, l + l') == WordsOf(words, l) + WordsOf(words, l')
  {
  }

  /** `answered ++ bank` holds every word exactly as often as the word list. */
  lemma WordsPermutation(s: seq<Offset>, words: seq<string>)
    requires |words| == |s|
    ensures forall k :: 0 <= k < |Sentence(s)| ==> Sentence(s)[k] < |words|
    ensures multiset(WordsOf(words, Sentence(s)) + WordsOf(words, BankIndices(Orders(s), |s|)))
         == multiset(words)
  {
    var os := Orders(s);
    SentenceIndices(s);
    var l := Sentence(s);
    var b := BankIndices(os, |s|);
    PermutedSplit(os);
    WordsOfConcat(words, l, b);
    IotaAt(|s|);
    WordsOfPermutation(words, l + b, Iota(|s|));
    WordsOfAll(words);
  }

  /** The sentence and the bank list are every index once. */
  lemma PermutedSplit(os: seq<int>)
    ensures multiset(Ranked(os, InBank) + BankIndices(os, |os|)) == multiset(Iota(|os|))
  {
    SplitIsPermutation(os, |os|);
  }

  /** `setOffsets(getOffsets())` changes no order: it only lays the sentence
      out again. */
  lemma GetThenSet(s: seq<Offset>)
    ensures Assigned(s, Orders(s)) == s
  {
  }

  /** After `setOffsets(a)` with one order per word, `getOffsets()` returns a. */
  lemma SetThenGet(s: seq<Offset>, a: seq<int>, g: Geometry)
    requires |a| == |s|
    ensures Orders(LaidOut(Assigned(s, a), g)) == a
  {
    LaidOutFrame(Assigned(s, a), g);
  }

  /** `setOffsets` keeps I1 only when the caller hands it dense ranks: with
      one order per word, the orders written are exactly `a`. */
  lemma SetDenseKeepsDense(s: seq<Offset>, a: seq<int>, g: Geometry)
    requires |a| == |s| && DenseRanks(a)
    ensures DenseRanks(Orders(LaidOut(Assigned(s, a), g)))
    ensures Sentence(LaidOut(Assigned(s, a), g)) == Ranked(a, InBank)
  {
    SetThenGet(s, a, g);
  }

  /** `setOffsets` checks nothing: two words given orders 5 and -1 break I1,
      since rank 5 lies past the one answered word. */
  lemma SetOffsetsMayBreakDense(g: Geometry)
    ensures var s := [Offset(-1, 0.0, 0.0, 0.0, 0.0, 0.0, 0.0), Offset(-1, 0.0, 0.0, 0.0, 0.0, 0.0, 0.0)];
      !DenseRanks(Orders(LaidOut(Assigned(s, [5, -1]), g)))
  {
    var s := [Offset(-1, 0.0, 0.0, 0.0, 0.0, 0.0, 0.0), Offset(-1, 0.0, 0.0, 0.0, 0.0, 0.0, 0.0)];
    SetThenGet(s, [5, -1], g);
    RankPastCount();
  }

  /** Rank 5 with one answered word is not dense. */
  lemma RankPastCount()
    ensures !DenseRanks([5, -1])
  {
    CountIsAnswered([5, -1]);
    assert AnsweredSet([5, -1]) == {0};
  }

  /** The handle's own example: words hello, world, foo, bar with orders
      1, -1, 0, 2 answer "foo hello bar" and leave "world" in the bank. */
  lemma HandleExample(s: seq<Offset>)
    requires |s| == 4 && s[0].order == 1 && s[1].order == -1 && s[2].order == 0 && s[3].order == 2
    ensures var words := ["hello", "world", "foo", "bar"];
      && WordsOf(words, Sentence(s)) == ["foo", "hello", "bar"]
      && WordsOf(words, BankIndices(Orders(s), 4)) == ["world"]
  {
    var os := Orders(s);
    assert os == [1, -1, 0, 2];
    HandleExampleRanked(os);
    assert Sentence(s) == [2, 0, 3];
    HandleExampleWords();
  }

  lemma HandleExampleWords()
    ensures var words := ["hello", "world", "foo", "bar"];
      && WordsOf(words, [2, 0, 3]) == ["foo", "hello", "bar"]
      && WordsOf(words, [1]) == ["world"]
  {
  }

  lemma HandleExampleRanked(os: seq<int>)
    requires os == [1, -1, 0, 2]
    ensures Ranked(os, InBank) == [2, 0, 3] && BankIndices(os, 4) == [1]
  {
    assert Candidates(os, InBank, 1) == [0];
    assert Candidates(os, InBank, 2) == [0];
    assert Candidates(os, InBank, 3) == [0, 2];
    assert Candidates(os, InBank, 4) == [0, 2, 3];
    assert BankIndices(os, 2) == [1];
    assert BankIndices(os, 4) == [1];
    assert DenseRanks(os);
    DenseSentenceUnique(os, [2, 0, 3]);
  }
}
