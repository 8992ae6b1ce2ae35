/** Counting facts about sets and duplicate-free sequences. */
module Collections {

  ghost function Elements<T>(s: seq<T>): set<T> {
    set x | x in s
  }

  predicate Distinct<T(==)>(s: seq<T>) {
    forall i, j :: 0 <= i < j < |s| ==> s[i] != s[j]
  }

  lemma {:induction false} SubsetCount<T>(a: set<T>, b: set<T>)
    requires a <= b
    ensures |a| <= |b|
    decreases a
  {
    if a != {} {
      var x :| x in a;
      SubsetCount(a - {x}, b - {x});
    }
  }

  /** A sequence repeats nothing exactly when it has as many elements as positions. */
  lemma {:induction false} DistinctCount<T>(s: seq<T>)
    ensures |Elements(s)| <= |s|
    ensures Distinct(s) <==> |Elements(s)| == |s|
  {
    if s != [] {
      var rest := s[1..];
      DistinctCount(rest);
      assert Elements(s) == {s[0]} + Elements(rest);
      if s[0] in rest {
        var j :| 0 <= j < |rest| && rest[j] == s[0];
        assert s[j + 1] == s[0];
        assert Elements(s) == Elements(rest);
      } else {
        assert forall i, j :: 0 <= i < j < |s| ==> (s[i] == s[j] <==> i > 0 && rest[i - 1] == rest[j - 1]);
      }
    }
  }

  function Map<A, B>(f: A -> B, s: seq<A>): (r: seq<B>)
    ensures |r| == |s|
    ensures forall i :: 0 <= i < |s| ==> r[i] == f(s[i])
  {
    seq(|s|, i requires 0 <= i < |s| => f(s[i]))
  }

  ghost function Without<A>(s: seq<A>, k: nat): seq<A>
    requires k < |s|
  {
    s[..k] + s[k + 1..]
  }

  lemma RemoveCounts<A>(s: seq<A>, k: nat)
    requires k < |s|
    ensures multiset(s) == multiset(Without(s, k)) + multiset{s[k]}
    ensures multiset(Without(s, k)) == multiset(s) - multiset{s[k]}
  {
    assert s == s[..k] + [s[k]] + s[k + 1..];
  }

  lemma HeadCounts<A>(s: seq<A>)
    requires s != []
    ensures s == [s[0]] + s[1..] && multiset(s[1..]) == multiset(s) - multiset{s[0]}
  {
  }

  lemma RemoveThenMap<A, B>(f: A -> B, s: seq<A>, k: nat)
    requires k < |s|
    ensures Map(f, Without(s, k)) == Without(Map(f, s), k)
  {
  }

  /** Mapping permuted sequences gives permuted results. */
  lemma {:induction false} MapPermutes<A, B>(f: A -> B, a: seq<A>, b: seq<A>)
    requires multiset(a) == multiset(b)
    ensures multiset(Map(f, a)) == multiset(Map(f, b))
    decreases |a|
  {
    assert |multiset(a)| == |multiset(b)|;
    if a != [] {
      assert a[0] in multiset(b);
      var k :| 0 <= k < |b| && b[k] == a[0];
      RemoveCounts(a, 0);
      RemoveCounts(b, k);
      MapPermutes(f, Without(a, 0), Without(b, k));
      RemoveThenMap(f, a, 0);
      RemoveThenMap(f, b, k);
      RemoveCounts(Map(f, a), 0);
      RemoveCounts(Map(f, b), k);
    }
  }

  lemma SameHeadSameCounts<A>(a: seq<A>, b: seq<A>, k: nat)
    requires a != [] && k < |b| && b[k] == a[0]
    ensures multiset(a) == multiset(b) <==> multiset(Without(a, 0)) == multiset(Without(b, k))
  {
    RemoveCounts(a, 0);
    RemoveCounts(b, k);
  }

  lemma WithoutHasFewer<A>(s: seq<A>, k: nat, x: A)
    requires k < |s| && x in Without(s, k)
    ensures x in s
  {
  }

  /** A function that tells the elements of the two sequences apart does not hide a difference between them. */
  lemma {:induction false} MapReflects<A, B>(f: A -> B, a: seq<A>, b: seq<A>)
    requires forall x, y :: x in a && y in b && f(x) == f(y) ==> x == y
    requires multiset(Map(f, a)) == multiset(Map(f, b))
    ensures multiset(a) == multiset(b)
    decreases |a|
  {
    assert |multiset(Map(f, a))| == |multiset(Map(f, b))|;
    if a != [] {
      assert Map(f, a)[0] in multiset(Map(f, b));
      var k :| 0 <= k < |b| && Map(f, b)[k] == f(a[0]);
      SameHeadSameCounts(a, b, k);
      SameHeadSameCounts(Map(f, a), Map(f, b), k);
      RemoveThenMap(f, a, 0);
      RemoveThenMap(f, b, k);
      forall x, y | x in Without(a, 0) && y in Without(b, k) && f(x) == f(y) ensures x == y {
        WithoutHasFewer(a, 0, x);
        WithoutHasFewer(b, k, y);
      }
      MapReflects(f, Without(a, 0), Without(b, k));
    }
  }

  lemma CommonHeadCounts<A>(head: seq<A>, a: seq<A>, b: seq<A>)
    ensures multiset(head + a) == multiset(head + b) <==> multiset(a) == multiset(b)
  {
    if multiset(head + a) == multiset(head + b) {
      assert multiset(a) == multiset(head + a) - multiset(head);
      assert multiset(b) == multiset(head + b) - multiset(head);
    }
  }

  function Filter<A>(keep: A -> bool, s: seq<A>): seq<A> {
    if s == [] then [] else Filter(keep, s[..|s| - 1]) + (if keep(s[|s| - 1]) then [s[|s| - 1]] else [])
  }

  lemma FilterLast<A>(keep: A -> bool, s: seq<A>, x: A)
    ensures Filter(keep, s + [x]) == Filter(keep, s) + (if keep(x) then [x] else [])
  {
  }

  lemma {:induction false} FilterJoin<A>(keep: A -> bool, a: seq<A>, b: seq<A>)
    ensures Filter(keep, a + b) == Filter(keep, a) + Filter(keep, b)
  {
    if b == [] {
      assert a + b == a;
    } else {
      var front, x := b[..|b| - 1], b[|b| - 1];
      FilterJoin(keep, a, front);
      assert b == front + [x];
      Associate(a, front, [x]);
      FilterLast(keep, a + front, x);
      FilterLast(keep, front, x);
      Associate(Filter(keep, a), Filter(keep, front), if keep(x) then [x] else []);
    }
  }

  lemma {:induction false} FilterKeepsExactly<A>(keep: A -> bool, s: seq<A>, x: A)
    ensures x in Filter(keep, s) <==> x in s && keep(x)
  {
    if s != [] {
      var n := |s| - 1;
      FilterKeepsExactly(keep, s[..n], x);
      assert s == s[..n] + [s[n]];
    }
  }

  lemma {:induction false} FilterNothing<A>(keep: A -> bool, s: seq<A>)
    requires forall x :: !keep(x)
    ensures Filter(keep, s) == []
  {
    if s != [] { FilterNothing(keep, s[..|s| - 1]); }
  }

  lemma Associate<A>(a: seq<A>, b: seq<A>, c: seq<A>)
    ensures (a + b) + c == a + (b + c)
  {
  }

  function FlatMap<A, B>(f: A -> seq<B>, s: seq<A>): seq<B> {
    if s == [] then [] else FlatMap(f, s[..|s| - 1]) + f(s[|s| - 1])
  }

  lemma FlatMapLast<A, B>(f: A -> seq<B>, s: seq<A>, x: A)
    ensures FlatMap(f, s + [x]) == FlatMap(f, s) + f(x)
  {
  }

  lemma {:induction false} FlatMapJoin<A, B>(f: A -> seq<B>, a: seq<A>, b: seq<A>)
    ensures FlatMap(f, a + b) == FlatMap(f, a) + FlatMap(f, b)
  {
    if b == [] {
      assert a + b == a;
    } else {
      var front, x := b[..|b| - 1], b[|b| - 1];
      FlatMapJoin(f, a, front);
      assert b == front + [x];
      Associate(a, front, [x]);
      FlatMapLast(f, a + front, x);
      FlatMapLast(f, front, x);
      Associate(FlatMap(f, a), FlatMap(f, front), f(x));
    }
  }

  lemma FlatMapRemove<A, B>(f: A -> seq<B>, s: seq<A>, k: nat)
    requires k < |s|
    ensures multiset(FlatMap(f, s)) == multiset(FlatMap(f, Without(s, k))) + multiset(f(s[k]))
  {
    var front, x, back := s[..k], s[k], s[k + 1..];
    var a, b, c := FlatMap(f, front), f(x), FlatMap(f, back);
    assert FlatMap(f, s) == (a + b) + c by {
      SplitAt(s, k);
      FlatMapJoin(f, front + [x], back);
      FlatMapLast(f, front, x);
    }
    assert FlatMap(f, Without(s, k)) == a + c by { FlatMapJoin(f, front, back); }
    MiddleCounts(a, b, c);
  }

  lemma MiddleCounts<A>(a: seq<A>, b: seq<A>, c: seq<A>)
    ensures multiset((a + b) + c) == multiset(a + c) + multiset(b)
  {
  }

  lemma SplitAt<A>(s: seq<A>, k: nat)
    requires k < |s|
    ensures s == (s[..k] + [s[k]]) + s[k + 1..]
  {
  }

  /** Collecting from the elements of permuted sequences collects the same things. */
  lemma {:induction false} FlatMapPermutes<A, B>(f: A -> seq<B>, a: seq<A>, b: seq<A>)
    requires multiset(a) == multiset(b)
    ensures multiset(FlatMap(f, a)) == multiset(FlatMap(f, b))
    decreases |a|
  {
    assert |multiset(a)| == |multiset(b)|;
    if a != [] {
      assert a[0] in multiset(b);
      var k :| 0 <= k < |b| && b[k] == a[0];
      RemoveCounts(a, 0);
      RemoveCounts(b, k);
      FlatMapPermutes(f, Without(a, 0), Without(b, k));
      FlatMapRemove(f, a, 0);
      FlatMapRemove(f, b, k);
    }
  }

  /** Two duplicate-free enumerations of one set are permutations of each other. */
  lemma {:induction false} EnumerationsPermute<A>(a: seq<A>, b: seq<A>)
    requires Distinct(a) && Distinct(b) && Elements(a) == Elements(b)
    ensures multiset(a) == multiset(b)
  {
    forall x ensures multiset(a)[x] == multiset(b)[x] {
      DistinctMultiplicity(a, x);
      DistinctMultiplicity(b, x);
      assert x in Elements(a) <==> x in Elements(b);
    }
  }

  lemma {:induction false} DistinctMultiplicity<A>(s: seq<A>, x: A)
    requires Distinct(s)
    ensures multiset(s)[x] == if x in s then 1 else 0
  {
    if s != [] {
      var n := |s| - 1;
      DistinctMultiplicity(s[..n], x);
      assert s == s[..n] + [s[n]];
    }
  }

  lemma Slices<A>(a: seq<A>, b: seq<A>, c: seq<A>, d: seq<A>)
    ensures var w := (a + b + c) + d;
      w[..|a|] == a && w[|a|..|a| + |b|] == b && w[|a| + |b|..] == c + d
  {
  }
}
