/** Sequence helpers: list comprehensions with a condition, and Python's prefix slice. */
module Seqs {

  /** `[x for x in s if keep(x)]` */
  function Filter<T>(s: seq<T>, keep: T -> bool): (r: seq<T>)
    ensures |r| <= |s|
    ensures forall i :: 0 <= i < |r| ==> r[i] in s && keep(r[i])
    ensures forall i :: 0 <= i < |s| && keep(s[i]) ==> s[i] in r
  {
    if s == [] then []
    else Filter(s[..|s| - 1], keep) + (if keep(s[|s| - 1]) then [s[|s| - 1]] else [])
  }

  /** Filtering keeps the relative order: it distributes over concatenation. */
  lemma {:induction false} FilterConcat<T>(a: seq<T>, b: seq<T>, keep: T -> bool)
    ensures Filter(a + b, keep) == Filter(a, keep) + Filter(b, keep)
  {
    if b != [] {
      assert (a + b)[..|a + b| - 1] == a + b[..|b| - 1];
      FilterConcat(a, b[..|b| - 1], keep);
    } else {
      assert a + b == a;
    }
  }

  /** Every element is kept or dropped, so the two filters partition the input. */
  lemma {:induction false} FilterPartition<T>(s: seq<T>, keep: T -> bool)
    ensures multiset(Filter(s, keep)) + multiset(Filter(s, x => !keep(x))) == multiset(s)
  {
    if s != [] {
      var front, x := s[..|s| - 1], s[|s| - 1];
      var drop := y => !keep(y);
      FilterPartition(front, keep);
      assert s == front + [x];
      assert Filter(s, keep) == Filter(front, keep) + (if keep(x) then [x] else []);
      assert Filter(s, drop) == Filter(front, drop) + (if drop(x) then [x] else []);
      if keep(x) {
        assert multiset(Filter(s, keep)) == multiset(Filter(front, keep)) + multiset{x};
        assert multiset(Filter(s, drop)) == multiset(Filter(front, drop));
      } else {
        assert multiset(Filter(s, keep)) == multiset(Filter(front, keep));
        assert multiset(Filter(s, drop)) == multiset(Filter(front, drop)) + multiset{x};
      }
    }
  }

  /** Taking one more element appends it. */
  lemma TakeSnoc<T>(s: seq<T>, j: nat)
    requires j < |s|
    ensures s[..j + 1] == s[..j] + [s[j]]
  {
  }

  /** `s[:n]` with Python's meaning for a negative n (drop the last -n elements). */
  function Prefix<T>(s: seq<T>, n: int): (r: seq<T>)
    ensures |r| <= |s| && r == s[..|r|]
    ensures n >= 0 ==> |r| == if n < |s| then n else |s|
    ensures n < 0 ==> |r| == if -n < |s| then |s| + n else 0
  {
    if n >= 0 then s[..if n < |s| then n else |s|]
    else s[..if -n < |s| then |s| + n else 0]
  }

  /** The number of elements of s equal to x. */
  function Count<T(==)>(s: seq<T>, x: T): (c: nat)
    ensures c <= |s|
    ensures c == 0 <==> x !in s
  {
    if s == [] then 0
    else Count(s[..|s| - 1], x) + (if s[|s| - 1] == x then 1 else 0)
  }

  /** The distinct elements of s, each at its first occurrence: iteration over set(s). */
  function Dedup<T(==,!new)>(s: seq<T>): (r: seq<T>)
    ensures forall i, j :: 0 <= i < j < |r| ==> r[i] != r[j]
    ensures forall x :: x in r <==> x in s
  {
    if s == [] then []
    else
      var d := Dedup(s[..|s| - 1]);
      assert forall x :: x in s <==> x in s[..|s| - 1] || x == s[|s| - 1];
      if s[|s| - 1] in d then d else d + [s[|s| - 1]]
  }

  /** `m.get(k, d)` */
  function Get<K, V>(m: map<K, V>, k: K, d: V): (v: V)
    ensures k in m ==> v == m[k]
    ensures k !in m ==> v == d
  {
    if k in m then m[k] else d
  }

  /** `for x in s: out.extend(f(x))` */
  function FlatMap<T, U>(s: seq<T>, f: T -> seq<U>): seq<U>
  {
    if s == [] then [] else FlatMap(s[..|s| - 1], f) + f(s[|s| - 1])
  }

  /** The outputs of consecutive runs follow each other. */
  lemma {:induction false} FlatMapConcat<T, U>(a: seq<T>, b: seq<T>, f: T -> seq<U>)
    ensures FlatMap(a + b, f) == FlatMap(a, f) + FlatMap(b, f)
  {
    if b == [] {
      assert a + b == a;
    } else {
      assert (a + b)[..|a + b| - 1] == a + b[..|b| - 1];
      FlatMapConcat(a, b[..|b| - 1], f);
    }
  }

  /** The first element's output comes first. */
  lemma FlatMapCons<T, U>(x: T, s: seq<T>, f: T -> seq<U>)
    ensures FlatMap([x] + s, f) == f(x) + FlatMap(s, f)
  {
    FlatMapConcat([x], s, f);
    assert [x][..0] == [];
  }

  /** A property of every output piece holds of the whole output, and at most k per input bounds its length. */
  lemma {:induction false} FlatMapAll<T, U>(s: seq<T>, f: T -> seq<U>, p: U -> bool, k: nat)
    requires forall i :: 0 <= i < |s| ==> |f(s[i])| <= k && forall j :: 0 <= j < |f(s[i])| ==> p(f(s[i])[j])
    ensures |FlatMap(s, f)| <= k * |s|
    ensures forall j :: 0 <= j < |FlatMap(s, f)| ==> p(FlatMap(s, f)[j])
  {
    if s != [] {
      var init := s[..|s| - 1];
      assert forall i :: 0 <= i < |init| ==> init[i] == s[i];
      FlatMapAll(init, f, p, k);
      var x, y := FlatMap(init, f), f(s[|s| - 1]);
      forall j | |x| <= j < |x + y| ensures p((x + y)[j]) {
        assert (x + y)[j] == y[j - |x|];
      }
    }
  }
}
