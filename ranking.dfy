/** The ranking algebra behind src/Layout.ts: which words are answered, and
    the answered words listed in sentence order.

    Everything here looks only at the `order` values of the records, given
    as a sequence `os` (entry i is the order of word i). An order of -1 puts
    the word in the bank; any other value is its rank in the sentence.

    The source sorts references with `Array.prototype.sort` and the
    comparator `a.order - b.order`. That sort is stable, and the filtered
    array it sorts lists the words by index. So "answered words sorted by
    order" is the list of answered indices ordered by (order, index). */
module Ranking {
  import opened Redash

  const InBank: int := -1

  /** Order i comes before order j in the sentence: by order, then by index. */
  predicate Before(os: seq<int>, i: nat, j: nat)
    requires i < |os| && j < |os|
  {
    os[i] < os[j] || (os[i] == os[j] && i < j)
  }

  ghost predicate InBounds(os: seq<int>, l: seq<nat>) {
    forall k :: 0 <= k < |l| ==> l[k] < |os|
  }

  ghost predicate Increasing(l: seq<nat>) {
    forall p, q :: 0 <= p < q < |l| ==> l[p] < l[q]
  }

  ghost predicate SortedByOrder(os: seq<int>, l: seq<nat>)
    requires InBounds(os, l)
  {
    forall p, q :: 0 <= p < q < |l| ==> Before(os, l[p], l[q])
  }

  /** The indices below n that the source's filters keep: answered, and not
      `skip` (the `i !== index` filter of `remove`; -1 keeps every index). */
  function Candidates(os: seq<int>, skip: int, n: nat): (c: seq<nat>)
    requires n <= |os|
    ensures InBounds(os, c)
  {
    if n == 0 then []
    else Candidates(os, skip, n - 1) + (if n - 1 != skip && os[n - 1] != InBank then [n - 1] else [])
  }

  lemma {:induction false} CandidatesMembers(os: seq<int>, skip: int, n: nat)
    requires n <= |os|
    ensures forall j: nat :: j in Candidates(os, skip, n) <==> j < n && j != skip && os[j] != InBank
  {
    if n > 0 { CandidatesMembers(os, skip, n - 1); }
  }

  lemma {:induction false} CandidatesIncreasing(os: seq<int>, skip: int, n: nat)
    requires n <= |os|
    ensures Increasing(Candidates(os, skip, n))
  {
    if n > 0 {
      CandidatesIncreasing(os, skip, n - 1);
      CandidatesBelow(os, skip, n - 1);
    }
  }

  /** Every candidate below n is below n. */
  lemma {:induction false} CandidatesBelow(os: seq<int>, skip: int, n: nat)
    requires n <= |os|
    ensures forall k :: 0 <= k < |Candidates(os, skip, n)| ==> Candidates(os, skip, n)[k] < n
  {
    if n > 0 { CandidatesBelow(os, skip, n - 1); }
  }

  /** The filters look only at bank membership: two order lists with the same
      members in the bank have the same candidates. */
  lemma {:induction false} CandidatesByMembership(os: seq<int>, os': seq<int>, skip: int, n: nat)
    requires n <= |os| == |os'|
    requires forall j :: 0 <= j < |os| ==> (os[j] == InBank <==> os'[j] == InBank)
    ensures Candidates(os, skip, n) == Candidates(os', skip, n)
  {
    if n > 0 { CandidatesByMembership(os, os', skip, n - 1); }
  }

  /** Skipping a bank word filters out nothing. */
  lemma {:induction false} CandidatesSkipBank(os: seq<int>, skip: int, n: nat)
    requires n <= |os|
    requires !(0 <= skip < |os|) || os[skip] == InBank
    ensures Candidates(os, skip, n) == Candidates(os, InBank, n)
  {
    if n > 0 { CandidatesSkipBank(os, skip, n - 1); }
  }

  /** One step of the stable insertion sort: i goes after every element whose
      order is not larger than its own. */
  function Insert(os: seq<int>, l: seq<nat>, i: nat): (r: seq<nat>)
    requires i < |os| && InBounds(os, l)
    ensures InBounds(os, r)
    ensures |r| == |l| + 1 && multiset(r) == multiset(l) + multiset{i}
  {
    if l == [] then [i]
    else if os[i] < os[l[0]] then [i] + l
    else
      assert l == [l[0]] + l[1..];
      [l[0]] + Insert(os, l[1..], i)
  }

  function SortByOrder(os: seq<int>, c: seq<nat>): (r: seq<nat>)
    requires InBounds(os, c)
    ensures InBounds(os, r)
    ensures |r| == |c| && multiset(r) == multiset(c)
  {
    if c == [] then []
    else
      assert c == c[..|c| - 1] + [c[|c| - 1]];
      Insert(os, SortByOrder(os, c[..|c| - 1]), c[|c| - 1])
  }

  /** `input.filter((_, i) => i !== skip).filter(isNotInBank).sort(byOrder)`,
      as indices: the sentence, without `skip`. */
  function Ranked(os: seq<int>, skip: int): seq<nat> {
    SortByOrder(os, Candidates(os, skip, |os|))
  }

  /** `input.filter(isNotInBank).length`: the number of answered words. */
  function Count(os: seq<int>): nat {
    |Candidates(os, InBank, |os|)|
  }

  ghost function AnsweredSet(os: seq<int>): set<nat> {
    set j: nat | j < |os| && os[j] != InBank
  }

  /** Invariant I1: the answered words hold the ranks 0 .. k-1, each once. */
  ghost predicate DenseRanks(os: seq<int>) {
    && (forall i :: 0 <= i < |os| && os[i] != InBank ==> 0 <= os[i] < Count(os))
    && (forall i, j :: 0 <= i < j < |os| && os[i] != InBank && os[j] != InBank ==> os[i] != os[j])
  }

  // ---------------------------------------------------------------------------
  // The sort

  lemma {:induction false} InsertSorted(os: seq<int>, l: seq<nat>, i: nat)
    requires i < |os| && InBounds(os, l) && SortedByOrder(os, l)
    requires forall k :: 0 <= k < |l| ==> l[k] < i
    ensures SortedByOrder(os, Insert(os, l, i))
  {
    if l != [] && os[i] >= os[l[0]] {
      var tail := Insert(os, l[1..], i);
      SortedTail(os, l);
      InsertSorted(os, l[1..], i);
      var r := Insert(os, l, i);
      assert r == [l[0]] + tail;
      forall q | 0 < q < |r| ensures Before(os, r[0], r[q]) {
        InsertMember(os, l[1..], i, q - 1);
        if tail[q - 1] != i {
          HeadBefore(os, l, tail[q - 1]);
        }
      }
    }
  }

  lemma InsertMember(os: seq<int>, l: seq<nat>, i: nat, q: nat)
    requires i < |os| && InBounds(os, l) && q <= |l|
    ensures Insert(os, l, i)[q] == i || Insert(os, l, i)[q] in l
  {
    var r := Insert(os, l, i);
    assert r[q] in multiset(r);
  }

  /** The head of a sorted list comes before the rest of it. */
  lemma HeadBefore(os: seq<int>, l: seq<nat>, x: nat)
    requires InBounds(os, l) && SortedByOrder(os, l) && |l| > 0 && x in l[1..]
    ensures x < |os| && Before(os, l[0], x)
  {
    var p :| 0 <= p < |l| - 1 && l[1..][p] == x;
    assert l[p + 1] == x;
  }

  lemma SortedTail(os: seq<int>, l: seq<nat>)
    requires |l| > 0 && InBounds(os, l) && SortedByOrder(os, l)
    ensures InBounds(os, l[1..]) && SortedByOrder(os, l[1..])
  {
  }

  lemma {:induction false} SortSorted(os: seq<int>, c: seq<nat>)
    requires InBounds(os, c) && Increasing(c)
    ensures SortedByOrder(os, SortByOrder(os, c))
  {
    if c != [] {
      var init := c[..|c| - 1];
      var last := c[|c| - 1];
      SortSorted(os, init);
      var l := SortByOrder(os, init);
      forall k | 0 <= k < |l| ensures l[k] < last {
        assert l[k] in multiset(l);
        assert l[k] in init;
      }
      InsertSorted(os, l, last);
    }
  }

  /** A list sorted by (order, index) names no index twice. */
  lemma SortedIsDistinct(os: seq<int>, l: seq<nat>)
    requires InBounds(os, l) && SortedByOrder(os, l)
    ensures Distinct(l)
  {
    forall p, q | 0 <= p < q < |l| ensures l[p] != l[q] {
      assert Before(os, l[p], l[q]);
    }
  }

  /** The sentence without `skip` lists exactly the answered words other than
      `skip`, each once, in (order, index) order; it is as long as their count. */
  lemma RankedFacts(os: seq<int>, skip: int)
    ensures InBounds(os, Ranked(os, skip)) && SortedByOrder(os, Ranked(os, skip))
    ensures Distinct(Ranked(os, skip))
    ensures |Ranked(os, skip)| == |Candidates(os, skip, |os|)|
    ensures forall j: nat :: j in Ranked(os, skip) <==> j < |os| && j != skip && os[j] != InBank
  {
    var c := Candidates(os, skip, |os|);
    CandidatesMembers(os, skip, |os|);
    CandidatesIncreasing(os, skip, |os|);
    SortSorted(os, c);
    SortedIsDistinct(os, Ranked(os, skip));
    forall j: nat ensures j in Ranked(os, skip) <==> j in c {
      assert j in Ranked(os, skip) <==> j in multiset(Ranked(os, skip));
      assert j in c <==> j in multiset(c);
    }
  }

  // ---------------------------------------------------------------------------
  // Counting

  lemma {:induction false} CandidatesCount(os: seq<int>, n: nat)
    requires n <= |os|
    ensures |Candidates(os, InBank, n)| == |AnsweredBelow(os, n)|
  {
    if n > 0 {
      CandidatesCount(os, n - 1);
      AnsweredBelowStep(os, n);
      CandidatesStep(os, n);
    }
  }

  lemma CandidatesStep(os: seq<int>, n: nat)
    requires 0 < n <= |os|
    ensures |Candidates(os, InBank, n)| == |Candidates(os, InBank, n - 1)| + (if os[n - 1] != InBank then 1 else 0)
  {
  }

  lemma AnsweredBelowStep(os: seq<int>, n: nat)
    requires 0 < n <= |os|
    ensures |AnsweredBelow(os, n)| == |AnsweredBelow(os, n - 1)| + (if os[n - 1] != InBank then 1 else 0)
  {
    var below := AnsweredBelow(os, n - 1);
    if os[n - 1] != InBank {
      assert AnsweredBelow(os, n) == below + {n - 1};
      assert n - 1 !in below;
    } else {
      assert AnsweredBelow(os, n) == below;
    }
  }

  ghost function AnsweredBelow(os: seq<int>, n: nat): (a: set<nat>)
    requires n <= |os|
    ensures forall j: nat :: j in a <==> j < n && os[j] != InBank
  {
    set j: nat | j < n && os[j] != InBank
  }

  /** `lastOrder` counts the answered words. */
  lemma CountIsAnswered(os: seq<int>)
    ensures Count(os) == |AnsweredSet(os)|
  {
    CandidatesCount(os, |os|);
    assert AnsweredBelow(os, |os|) == AnsweredSet(os);
  }

  // ---------------------------------------------------------------------------
  // Dense ranks and sentence positions

  /** Under I1 no two answered words share an order. */
  lemma DenseInjective(os: seq<int>, i: nat, j: nat)
    requires DenseRanks(os) && i < |os| && j < |os|
    requires os[i] != InBank && os[i] == os[j]
    ensures i == j
  {
  }

  lemma {:induction false} CountUpFrom(t: seq<int>, r: nat)
    requires forall p :: 0 <= p < |t| ==> 0 <= t[p]
    requires forall p :: 0 < p < |t| ==> t[p - 1] < t[p]
    requires r < |t|
    ensures t[r] >= r
  {
    if r > 0 { CountUpFrom(t, r - 1); }
  }

  lemma {:induction false} CountDownFrom(t: seq<int>, r: nat)
    requires forall p :: 0 <= p < |t| ==> t[p] < |t|
    requires forall p :: 0 < p < |t| ==> t[p - 1] < t[p]
    requires r < |t|
    ensures t[r] <= r
    decreases |t| - r
  {
    if r < |t| - 1 { CountDownFrom(t, r + 1); }
  }

  /** Strictly increasing values in [0, |t|) are 0, 1, ..., |t|-1. */
  lemma StrictRangeIsIdentity(t: seq<int>)
    requires forall p :: 0 <= p < |t| ==> 0 <= t[p] < |t|
    requires forall p :: 0 < p < |t| ==> t[p - 1] < t[p]
    ensures forall r :: 0 <= r < |t| ==> t[r] == r
  {
    forall r | 0 <= r < |t| ensures t[r] == r {
      CountUpFrom(t, r);
      CountDownFrom(t, r);
    }
  }

  /** Along a sentence of dense orders, the orders strictly increase. */
  lemma DenseSentenceIncreases(os: seq<int>, l: seq<nat>)
    requires DenseRanks(os) && InBounds(os, l) && SortedByOrder(os, l) && Distinct(l)
    requires forall k :: 0 <= k < |l| ==> os[l[k]] != InBank
    ensures forall p :: 0 < p < |l| ==> os[l[p - 1]] < os[l[p]]
  {
    forall p | 0 < p < |l| ensures os[l[p - 1]] < os[l[p]] {
      var i, j := l[p - 1], l[p];
      assert Before(os, i, j);
      if i < j { assert os[i] != os[j]; }
      else { assert i != j; assert os[j] != os[i]; }
    }
  }

  /** With dense ranks, rank r of the sentence is the word whose order is r. */
  lemma DenseRankedAt(os: seq<int>)
    requires DenseRanks(os)
    ensures |Ranked(os, InBank)| == Count(os)
    ensures forall r :: 0 <= r < |Ranked(os, InBank)| ==> os[Ranked(os, InBank)[r]] == r
  {
    var l := Ranked(os, InBank);
    RankedFacts(os, InBank);
    forall k | 0 <= k < |l| ensures os[l[k]] != InBank && 0 <= os[l[k]] < |l| {
      assert l[k] in l;
    }
    DenseSentenceIncreases(os, l);
    var t := seq(|l|, p requires 0 <= p < |l| => os[l[p]]);
    assert forall p :: 0 <= p < |t| ==> t[p] == os[l[p]];
    StrictRangeIsIdentity(t);
  }

  /** Conversely, a sentence whose rank r holds order r for every r is dense. */
  lemma RankedAtDense(os: seq<int>)
    requires forall r :: 0 <= r < |Ranked(os, InBank)| ==> os[Ranked(os, InBank)[r]] == r
    ensures DenseRanks(os)
  {
    var l := Ranked(os, InBank);
    RankedFacts(os, InBank);
    forall i | 0 <= i < |os| && os[i] != InBank ensures 0 <= os[i] < Count(os) {
      assert i in l;
      var p :| 0 <= p < |l| && l[p] == i;
    }
    forall i, j | 0 <= i < j < |os| && os[i] != InBank && os[j] != InBank ensures os[i] != os[j] {
      assert i in l && j in l;
      var p :| 0 <= p < |l| && l[p] == i;
      var q :| 0 <= q < |l| && l[q] == j;
    }
  }

  /** Two dense orderings with the same answered words and the same sentence
      are equal. */
  lemma SentenceDeterminesOrders(os: seq<int>, os': seq<int>)
    requires |os| == |os'| && DenseRanks(os) && DenseRanks(os')
    requires Ranked(os, InBank) == Ranked(os', InBank)
    requires forall j :: 0 <= j < |os| ==> (os[j] == InBank <==> os'[j] == InBank)
    ensures os == os'
  {
    var l := Ranked(os, InBank);
    DenseRankedAt(os);
    DenseRankedAt(os');
    RankedFacts(os, InBank);
    forall j | 0 <= j < |os| ensures os[j] == os'[j] {
      if os[j] != InBank {
        assert j in l;
        var p :| 0 <= p < |l| && l[p] == j;
      }
    }
  }

  // ---------------------------------------------------------------------------
  // Appending a bank word

  lemma AppendCount(os: seq<int>, i: nat, k: nat)
    requires i < |os| && os[i] == InBank
    ensures Count(os[i := k]) == Count(os) + 1
  {
    var os' := os[i := k];
    CountIsAnswered(os);
    CountIsAnswered(os');
    assert AnsweredSet(os') == AnsweredSet(os) + {i};
  }

  /** Giving a bank word the order `Count(os)` keeps I1 with one more rank. */
  lemma AppendDense(os: seq<int>, i: nat)
    requires DenseRanks(os) && i < |os| && os[i] == InBank
    ensures Count(os[i := Count(os)]) == Count(os) + 1
    ensures DenseRanks(os[i := Count(os)])
  {
    var k := Count(os);
    var os' := os[i := k];
    AppendCount(os, i, k);
    forall j | 0 <= j < |os'| && os'[j] != InBank ensures 0 <= os'[j] < Count(os') {
      if j != i { assert os'[j] == os[j]; }
    }
    forall p, q | 0 <= p < q < |os'| && os'[p] != InBank && os'[q] != InBank
      ensures os'[p] != os'[q]
    {
      if p != i && q != i { assert os'[p] == os[p] && os'[q] == os[q]; }
      else if p == i { assert os'[q] == os[q] < k; }
      else { assert os'[p] == os[p] < k; }
    }
  }

  /** ... and the sentence gains that word at its end. */
  lemma AppendSentence(os: seq<int>, i: nat)
    requires DenseRanks(os) && i < |os| && os[i] == InBank
    ensures Ranked(os[i := Count(os)], InBank) == Ranked(os, InBank) + [i]
  {
    var k := Count(os);
    var os' := os[i := k];
    AppendDense(os, i);
    var l := Ranked(os, InBank) + [i];
    DenseRankedAt(os);
    RankedFacts(os, InBank);
    forall r | 0 <= r < |l| ensures l[r] < |os'| && os'[l[r]] == r {
      if r < k {
        assert l[r] in Ranked(os, InBank);
      }
    }
    DenseSentenceUnique(os', l);
  }

  /** With dense ranks, the sentence is the only list of the answered words
      whose rank r holds the word of order r. */
  lemma DenseSentenceUnique(os: seq<int>, l: seq<nat>)
    requires DenseRanks(os) && |l| == Count(os)
    requires forall r :: 0 <= r < |l| ==> l[r] < |os| && os[l[r]] == r
    ensures Ranked(os, InBank) == l
  {
    var l' := Ranked(os, InBank);
    DenseRankedAt(os);
    assert InBounds(os, l');
    forall r | 0 <= r < |l| ensures l'[r] == l[r] {
      DenseInjective(os, l'[r], l[r]);
    }
  }
}
