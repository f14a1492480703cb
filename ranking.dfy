/**
 * Python's list.sort(key=..., reverse=True) on a list of scored items.
 * The sort is stable, so items with equal scores keep their order; each
 * item is tagged with its position before sorting, which makes the wanted
 * order a strict total order: higher score first, then lower position.
 */
module Ranking {

  datatype Ranked<T> = Ranked(pos: nat, score: real, item: T)

  /** x comes before y in a reverse-by-score stable sort. */
  predicate Before<T>(x: Ranked<T>, y: Ranked<T>)
  {
    x.score > y.score || (x.score == y.score && x.pos < y.pos)
  }

  predicate SortedDesc<T>(s: seq<Ranked<T>>)
  {
    forall i, j :: 0 <= i < j < |s| ==> Before(s[i], s[j])
  }

  predicate DistinctPos<T>(s: seq<Ranked<T>>)
  {
    forall i, j :: 0 <= i < j < |s| ==> s[i].pos != s[j].pos
  }

  /** Item i of the list, scored by scores[i], tagged with position i. */
  function Tag<T>(items: seq<T>, scores: seq<real>): (r: seq<Ranked<T>>)
    requires |scores| == |items|
    ensures |r| == |items| && DistinctPos(r)
    ensures forall i :: 0 <= i < |r| ==> r[i] == Ranked(i, scores[i], items[i])
  {
    seq(|items|, i requires 0 <= i < |items| => Ranked(i, scores[i], items[i]))
  }

  function Items<T>(s: seq<Ranked<T>>): (r: seq<T>)
    ensures |r| == |s| && forall i :: 0 <= i < |s| ==> r[i] == s[i].item
  {
    seq(|s|, i requires 0 <= i < |s| => s[i].item)
  }

  /** Insert x into a sorted list at the place the order gives it. */
  function Insert<T(==)>(s: seq<Ranked<T>>, x: Ranked<T>): (r: seq<Ranked<T>>)
    requires SortedDesc(s)
    requires forall i :: 0 <= i < |s| ==> s[i].pos != x.pos
    ensures SortedDesc(r)
    ensures multiset(r) == multiset(s) + multiset{x}
    ensures forall y :: y in r ==> y in s || y == x
  {
    if s == [] then [x]
    else if Before(x, s[0]) then
      ConsSorted(x, s);
      [x] + s
    else
      var rest := Insert(s[1..], x);
      assert s == [s[0]] + s[1..];
      forall y | y in rest ensures Before(s[0], y) {
        if y != x {
          var j :| 0 <= j < |s[1..]| && s[1..][j] == y;
          assert s[j + 1] == y;
        }
      }
      ConsSorted(s[0], rest);
      [s[0]] + rest
  }

  lemma ConsSorted<T>(h: Ranked<T>, rest: seq<Ranked<T>>)
    requires SortedDesc(rest)
    requires forall y :: y in rest ==> Before(h, y)
    ensures SortedDesc([h] + rest)
  {
    var r := [h] + rest;
    forall i, j | 0 <= i < j < |r| ensures Before(r[i], r[j]) {
      if i > 0 {
        assert r[i] == rest[i - 1] && r[j] == rest[j - 1];
      } else {
        assert r[j] in rest;
      }
    }
  }

  /** The stable descending sort, as a permutation of its input. */
  function SortRanked<T(==)>(s: seq<Ranked<T>>): (r: seq<Ranked<T>>)
    requires DistinctPos(s)
    ensures SortedDesc(r)
    ensures multiset(r) == multiset(s)
    ensures forall y :: y in r ==> y in s
  {
    if s == [] then []
    else
      var init := s[..|s| - 1];
      var sorted := SortRanked(init);
      assert s == init + [s[|s| - 1]];
      forall i | 0 <= i < |sorted| ensures sorted[i].pos != s[|s| - 1].pos {
        assert sorted[i] in init;
        var j :| 0 <= j < |init| && init[j] == sorted[i];
        assert s[j] == init[j];
      }
      Insert(sorted, s[|s| - 1])
  }

  /**
   * The order is strict and total on distinct positions, so there is only
   * one sorted arrangement of a list: whatever computes it agrees with the
   * stable sort.
   */
  /** The head of a sorted list comes before every other element of it. */
  lemma HeadFirst<T>(a: seq<Ranked<T>>, x: Ranked<T>)
    requires SortedDesc(a) && x in a
    ensures x == a[0] || Before(a[0], x)
  {
    var k :| 0 <= k < |a| && a[k] == x;
  }

  lemma SortedTail<T>(a: seq<Ranked<T>>)
    requires SortedDesc(a) && a != []
    ensures SortedDesc(a[1..])
  {
    forall i, j | 0 <= i < j < |a| - 1 ensures Before(a[1..][i], a[1..][j]) {
      assert a[1..][i] == a[i + 1] && a[1..][j] == a[j + 1];
    }
  }

  lemma MultisetTail<T>(a: seq<T>)
    requires a != []
    ensures multiset(a[1..]) == multiset(a) - multiset{a[0]}
  {
    assert a == [a[0]] + a[1..];
  }

  /** Two sorted lists with the same elements have the same head. */
  lemma SameHead<T>(a: seq<Ranked<T>>, b: seq<Ranked<T>>)
    requires SortedDesc(a) && SortedDesc(b) && multiset(a) == multiset(b) && a != []
    ensures b != [] && a[0] == b[0]
  {
    assert a[0] in multiset(b);
    assert b[0] in multiset(a);
    HeadFirst(b, a[0]);
    HeadFirst(a, b[0]);
  }

  lemma {:induction false} SortedUnique<T>(a: seq<Ranked<T>>, b: seq<Ranked<T>>)
    requires SortedDesc(a) && SortedDesc(b) && multiset(a) == multiset(b)
    ensures a == b
  {
    if a != [] {
      SameHead(a, b);
      MultisetTail(a);
      MultisetTail(b);
      SortedTail(a);
      SortedTail(b);
      SortedUnique(a[1..], b[1..]);
      assert a == [a[0]] + a[1..] && b == [b[0]] + b[1..];
    } else {
      assert |multiset(b)| == 0;
    }
  }

  /** Sorting keeps every item and orders the scores non-increasingly, ties by original position. */
  lemma SortRankedOrder<T>(s: seq<Ranked<T>>)
    requires DistinctPos(s)
    ensures |SortRanked(s)| == |s|
    ensures forall i, j :: 0 <= i < j < |SortRanked(s)| ==>
      SortRanked(s)[i].score >= SortRanked(s)[j].score
      && (SortRanked(s)[i].score == SortRanked(s)[j].score ==> SortRanked(s)[i].pos < SortRanked(s)[j].pos)
  {
    assert |multiset(SortRanked(s))| == |multiset(s)|;
  }

  /** An element drawn from a tagged list is the item and score at its own position. */
  lemma FromTag<T>(s: seq<Ranked<T>>, items: seq<T>, scores: seq<real>)
    requires |scores| == |items|
    requires forall y :: y in s ==> y in Tag(items, scores)
    ensures forall k :: 0 <= k < |s| ==> s[k].pos < |items| && s[k] == Ranked(s[k].pos, scores[s[k].pos], items[s[k].pos])
  {
    forall k | 0 <= k < |s| ensures s[k].pos < |items| && s[k] == Ranked(s[k].pos, scores[s[k].pos], items[s[k].pos]) {
      assert s[k] in Tag(items, scores);
    }
  }
}
