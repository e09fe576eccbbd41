/** The two helpers the widget takes from the react-native-redash library.
    Their source is not part of this model, so their behaviour is stated here
    as definitions:
    - `move(xs, from, to)` takes out the element at `from` and puts it back at
      `to` in the shortened list; a negative index counts from the end
      (length is added once), and a `to` beyond the end appends;
    - `between(v, lo, hi, inclusive)` is `lo <= v <= hi`, or `lo < v < hi`
      when `inclusive` is false. */
module Redash {

  /** A list with no element twice. */
  ghost predicate Distinct<T>(xs: seq<T>) {
    forall p, q :: 0 <= p < q < |xs| ==> xs[p] != xs[q]
  }

  /** The index `move` uses for `i` in a list of length `n`. */
  function Wrap(i: int, n: nat): (r: nat)
    requires -(n as int) <= i < n
    ensures r < n
    ensures i >= 0 ==> r == i
    ensures i < 0 ==> r == n + i
  {
    if i < 0 then i + n else i
  }

  /** The insertion point of `move`, in the list that has already lost one
      element: a target past its end appends. */
  function Target(to: int, n: nat): (t: nat)
    requires 0 < n && -(n as int) <= to
    ensures t < n
    ensures 0 <= to < n ==> t == to
    ensures to >= n ==> t == n - 1
  {
    var w := if to < 0 then to + n else to;
    if w < n - 1 then w else n - 1
  }

  /** xs with the element at p taken out. */
  function Without<T>(xs: seq<T>, p: nat): (r: seq<T>)
    requires p < |xs|
    ensures |r| == |xs| - 1
    ensures forall k :: 0 <= k < |r| ==> r[k] == (if k < p then xs[k] else xs[k + 1])
  {
    xs[..p] + xs[p + 1..]
  }

  function Move<T>(xs: seq<T>, from: int, to: int): (r: seq<T>)
    requires -|xs| <= from < |xs|
    requires -|xs| <= to
  {
    var f := Wrap(from, |xs|);
    var rest := Without(xs, f);
    var t := Target(to, |xs|);
    rest[..t] + [xs[f]] + rest[t..]
  }

  /** Where the element at position p of `Move(xs, from, to)` came from. */
  function MoveSource(f: nat, t: nat, p: nat): nat {
    var q := if p < t then p else if p == t then -1 else p - 1;
    if q == -1 then f else if q < f then q else q + 1
  }

  lemma MoveAt<T>(xs: seq<T>, from: int, to: int)
    requires -|xs| <= from < |xs| && -|xs| <= to
    ensures |Move(xs, from, to)| == |xs|
    ensures forall p :: 0 <= p < |xs| ==>
      MoveSource(Wrap(from, |xs|), Target(to, |xs|), p) < |xs| &&
      Move(xs, from, to)[p] == xs[MoveSource(Wrap(from, |xs|), Target(to, |xs|), p)]
  {
  }

  /** `move` keeps the length and the elements. */
  lemma MoveIsPermutation<T>(xs: seq<T>, from: int, to: int)
    requires -|xs| <= from < |xs| && -|xs| <= to
    ensures |Move(xs, from, to)| == |xs|
    ensures multiset(Move(xs, from, to)) == multiset(xs)
  {
    var f, t := Wrap(from, |xs|), Target(to, |xs|);
    var rest := Without(xs, f);
    WithoutMultiset(xs, f);
    InsertAtMultiset(rest, t, xs[f]);
  }

  /** Taking out one element takes it out of the multiset. */
  lemma WithoutMultiset<T>(xs: seq<T>, p: nat)
    requires p < |xs|
    ensures multiset(Without(xs, p)) + multiset{xs[p]} == multiset(xs)
    ensures multiset(Without(xs, p)) == multiset(xs) - multiset{xs[p]}
  {
    assert xs == xs[..p] + [xs[p]] + xs[p + 1..];
  }

  lemma InsertAtMultiset<T>(r: seq<T>, t: nat, x: T)
    requires t <= |r|
    ensures multiset(r[..t] + [x] + r[t..]) == multiset(r) + multiset{x}
  {
    assert r == r[..t] + r[t..];
  }

  /** `move` keeps the set of elements. */
  lemma MoveKeepsMembers<T>(xs: seq<T>, from: int, to: int)
    requires -|xs| <= from < |xs| && -|xs| <= to
    ensures |Move(xs, from, to)| == |xs|
    ensures forall x :: x in Move(xs, from, to) <==> x in xs
  {
    MoveIsPermutation(xs, from, to);
    forall x ensures x in Move(xs, from, to) <==> x in xs {
      assert x in Move(xs, from, to) <==> x in multiset(Move(xs, from, to));
      assert x in xs <==> x in multiset(xs);
    }
  }

  /** `move` duplicates no element. */
  lemma MoveKeepsDistinct<T>(xs: seq<T>, from: int, to: int)
    requires -|xs| <= from < |xs| && -|xs| <= to
    requires Distinct(xs)
    ensures Distinct(Move(xs, from, to))
  {
    var f, t := Wrap(from, |xs|), Target(to, |xs|);
    var r := Move(xs, from, to);
    MoveAt(xs, from, to);
    forall p, q | 0 <= p < q < |r| ensures r[p] != r[q] {
      assert MoveSource(f, t, p) != MoveSource(f, t, q);
    }
  }

  /** The position of x in xs (its first one). */
  function IndexOf<T(==)>(xs: seq<T>, x: T): (p: nat)
    requires x in xs
    ensures p < |xs| && xs[p] == x
  {
    if xs[0] == x then 0 else 1 + IndexOf(xs[1..], x)
  }

  lemma IndexOfDistinct<T>(xs: seq<T>, p: nat)
    requires Distinct(xs) && p < |xs|
    ensures IndexOf(xs, xs[p]) == p
  {
  }

  /** Away from the insertion point, `move` keeps positions in order. */
  lemma MoveSourceMonotone(f: nat, t: nat, p: nat, q: nat)
    requires p < q && p != t && q != t
    ensures MoveSource(f, t, p) < MoveSource(f, t, q)
  {
  }

  /** Away from the insertion point, `move` keeps positions in order, in both
      directions. */
  lemma MoveSourceOrder(f: nat, t: nat, p: nat, q: nat)
    requires p != t && q != t
    ensures p < q <==> MoveSource(f, t, p) < MoveSource(f, t, q)
  {
    if p < q { MoveSourceMonotone(f, t, p, q); }
    if q < p { MoveSourceMonotone(f, t, q, p); }
  }

  /** Any two elements other than the moved one keep their relative order. */
  lemma MoveKeepsRelativeOrder<T>(xs: seq<T>, from: nat, to: nat, u: T, v: T)
    requires from < |xs| && to < |xs| && Distinct(xs)
    requires u in xs && v in xs && u != xs[from] && v != xs[from]
    ensures u in Move(xs, from, to) && v in Move(xs, from, to)
    ensures IndexOf(Move(xs, from, to), u) < IndexOf(Move(xs, from, to), v) <==> IndexOf(xs, u) < IndexOf(xs, v)
  {
    var r := Move(xs, from, to);
    MoveIndexOf(xs, from, to, u);
    MoveIndexOf(xs, from, to, v);
    MoveSourceOrder(from, to, IndexOf(r, u), IndexOf(r, v));
  }

  /** An element other than the moved one is found in the result away from
      the insertion point, at a position whose source is its old position. */
  lemma MoveIndexOf<T>(xs: seq<T>, from: nat, to: nat, u: T)
    requires from < |xs| && to < |xs| && Distinct(xs)
    requires u in xs && u != xs[from]
    ensures u in Move(xs, from, to)
    ensures IndexOf(Move(xs, from, to), u) != to
    ensures IndexOf(xs, u) == MoveSource(from, to, IndexOf(Move(xs, from, to), u))
  {
    var r := Move(xs, from, to);
    MoveKeepsMembers(xs, from, to);
    MoveAt(xs, from, to);
    var pu := IndexOf(r, u);
    IndexOfDistinct(xs, MoveSource(from, to, pu));
    MoveLands(xs, from, to);
  }

  /** The element taken at rank `from` lands at rank `to`. */
  lemma MoveLands<T>(xs: seq<T>, from: nat, to: nat)
    requires from < |xs| && to < |xs|
    ensures Move(xs, from, to)[to] == xs[from]
  {
    MoveAt(xs, from, to);
  }

  /** Every other element keeps its relative order: removing the moved element
      from the result gives the input without it. */
  lemma MoveKeepsOthers<T>(xs: seq<T>, from: nat, to: nat)
    requires from < |xs| && to < |xs|
    ensures Without(Move(xs, from, to), to) == Without(xs, from)
  {
    MoveAt(xs, from, to);
  }

  /** Moving an element onto its own rank changes nothing. */
  lemma MoveInPlace<T>(xs: seq<T>, i: nat)
    requires i < |xs|
    ensures Move(xs, i, i) == xs
  {
    MoveAt(xs, i, i);
  }

  /** A negative index is the same as the index that many places from the end. */
  lemma MoveWraps<T>(xs: seq<T>, from: int, to: int)
    requires -|xs| <= from < 0 && -|xs| <= to < 0
    ensures Move(xs, from, to) == Move(xs, |xs| + from, |xs| + to)
  {
  }

  /** Rank 0 of four moved to rank 2: the two after it shift down by one. */
  lemma MoveExample<T>(a: T, b: T, c: T, d: T)
    ensures Move([a, b, c, d], 0, 2) == [b, c, a, d]
  {
    assert Without([a, b, c, d], 0) == [b, c, d];
  }

  function Between(v: real, lo: real, hi: real, inclusive: bool): (b: bool)
    ensures inclusive ==> (b <==> lo <= v && v <= hi)
    ensures !inclusive ==> (b <==> lo < v && v < hi)
    ensures (lo < v < hi) ==> b
  {
    if inclusive then lo <= v <= hi else lo < v < hi
  }
}
