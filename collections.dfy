/** Small generic helpers over sequences shared by the solver model. */
module Collections {

  datatype Option<+T> = None | Some(value: T)

  /** Keeps, in order, the elements of `s` that satisfy `p` (JavaScript's `Array.prototype.filter`). */
  function Filter<T(!new)>(s: seq<T>, p: T -> bool): (r: seq<T>)
    ensures |r| <= |s|
  {
    if s == [] then [] else (if p(s[0]) then [s[0]] else []) + Filter(s[1..], p)
  }

  /** The kept elements are exactly the elements that pass the test. */
  lemma {:induction false} FilterMembers<T(!new)>(s: seq<T>, p: T -> bool, x: T)
    ensures x in Filter(s, p) <==> x in s && p(x)
  {
    if s != [] {
      FilterMembers(s[1..], p, x);
      assert s == [s[0]] + s[1..];
    }
  }

  lemma AppendAssociative<T>(a: seq<T>, b: seq<T>, c: seq<T>)
    ensures (a + b) + c == a + (b + c)
  {
  }

  lemma {:induction false} FilterConcat<T(!new)>(a: seq<T>, b: seq<T>, p: T -> bool)
    ensures Filter(a + b, p) == Filter(a, p) + Filter(b, p)
  {
    if a == [] {
      assert a + b == b;
    } else {
      var h := a[0];
      var head := if p(h) then [h] else [];
      assert (a + b)[0] == h;
      assert (a + b)[1..] == a[1..] + b;
      FilterConcat(a[1..], b, p);
      assert Filter(a + b, p) == head + Filter(a[1..] + b, p);
      assert Filter(a, p) == head + Filter(a[1..], p);
      AppendAssociative(head, Filter(a[1..], p), Filter(b, p));
    }
  }

  lemma {:induction false} FilterMultiset<T(!new)>(s: seq<T>, p: T -> bool)
    ensures multiset(Filter(s, p)) <= multiset(s)
  {
    if s != [] {
      FilterMultiset(s[1..], p);
      assert s == [s[0]] + s[1..];
    }
  }

  /** Splitting by a test and by its negation loses and duplicates nothing. */
  lemma {:induction false} FilterPartition<T(!new)>(s: seq<T>, p: T -> bool, q: T -> bool)
    requires forall x :: q(x) == !p(x)
    ensures multiset(Filter(s, p)) + multiset(Filter(s, q)) == multiset(s)
  {
    if s != [] {
      var h, t := s[0], s[1..];
      FilterPartition(t, p, q);
      assert s == [h] + t;
      var fp, fq := Filter(t, p), Filter(t, q);
      if p(h) {
        assert Filter(s, p) == [h] + fp;
        assert Filter(s, q) == fq;
      } else {
        assert Filter(s, p) == fp;
        assert Filter(s, q) == [h] + fq;
      }
      PartitionStep(h, t, fp, fq, Filter(s, p), Filter(s, q));
    }
  }

  /** Adding one element to one side of a split of `t` splits `[h] + t`. */
  lemma PartitionStep<T>(h: T, t: seq<T>, a: seq<T>, b: seq<T>, a2: seq<T>, b2: seq<T>)
    requires multiset(a) + multiset(b) == multiset(t)
    requires (a2 == [h] + a && b2 == b) || (a2 == a && b2 == [h] + b)
    ensures multiset(a2) + multiset(b2) == multiset([h] + t)
  {
  }

  /** The concatenation of `f(x)` over the elements `x` of `xs`, in order (a loop that appends per element). */
  function ConcatMap<A, B>(f: A -> seq<B>, xs: seq<A>): seq<B> {
    if xs == [] then [] else ConcatMap(f, xs[..|xs| - 1]) + f(xs[|xs| - 1])
  }

  lemma ConcatMapStep<A, B>(f: A -> seq<B>, xs: seq<A>, x: A)
    ensures ConcatMap(f, xs + [x]) == ConcatMap(f, xs) + f(x)
  {
    assert (xs + [x])[..|xs|] == xs;
  }

  /** Every element of the concatenation comes from the image of some element. */
  lemma {:induction false} ConcatMapSound<A, B>(f: A -> seq<B>, xs: seq<A>, y: B)
    requires y in ConcatMap(f, xs)
    ensures exists i :: 0 <= i < |xs| && y in f(xs[i])
  {
    var n := |xs| - 1;
    if y in ConcatMap(f, xs[..n]) {
      ConcatMapSound(f, xs[..n], y);
      var i :| 0 <= i < n && y in f(xs[..n][i]);
      assert xs[..n][i] == xs[i];
    } else {
      assert y in f(xs[n]);
    }
  }

  /** Every element of the image of an element occurs in the concatenation. */
  lemma {:induction false} ConcatMapComplete<A, B>(f: A -> seq<B>, xs: seq<A>, i: nat, y: B)
    requires i < |xs| && y in f(xs[i])
    ensures y in ConcatMap(f, xs)
  {
    var n := |xs| - 1;
    if i < n {
      assert xs[..n][i] == xs[i];
      ConcatMapComplete(f, xs[..n], i, y);
    }
  }

  /** No element occurs twice. */
  predicate Distinct<T(==)>(s: seq<T>) {
    forall i, j :: 0 <= i < j < |s| ==> s[i] != s[j]
  }

  /** A sequence without repetitions has as many elements as its set. */
  lemma {:induction false} DistinctCardinality<T>(s: seq<T>)
    requires Distinct(s)
    ensures |set x | x in s| == |s|
  {
    if s != [] {
      var init := s[..|s| - 1];
      assert Distinct(init);
      DistinctCardinality(init);
      assert (set x | x in s) == (set x | x in init) + {s[|s| - 1]};
      assert s[|s| - 1] !in init;
    }
  }

  /** Appending an element not yet present keeps a sequence without repetitions. */
  lemma DistinctSnoc<T>(s: seq<T>, tail: seq<T>, x: T)
    requires Distinct(s) && x !in s && (tail == [] || tail == [x])
    ensures Distinct(s + tail)
  {
    var all := s + tail;
    forall i, j | 0 <= i < j < |all| ensures all[i] != all[j] {
      assert all[i] == s[i];
      if j == |s| { assert all[j] == x; } else { assert all[j] == s[j]; }
    }
  }

  /** Every element of a sequence without repetitions occurs at most once. */
  lemma {:induction false} DistinctMultiplicity<T>(s: seq<T>, x: T)
    requires Distinct(s)
    ensures multiset(s)[x] <= 1
  {
    if s != [] {
      var init := s[..|s| - 1];
      assert Distinct(init);
      DistinctMultiplicity(init, x);
      assert s == init + [s[|s| - 1]];
      assert s[|s| - 1] !in init;
    }
  }

  /** A sequence whose elements are drawn, with multiplicity, from one without repetitions has none either. */
  lemma SubMultisetDistinct<T>(s: seq<T>, t: seq<T>)
    requires Distinct(t) && multiset(s) <= multiset(t)
    ensures Distinct(s)
  {
    forall i, j | 0 <= i < j < |s| ensures s[i] != s[j] {
      var x := s[i];
      assert s == s[..i] + [s[i]] + s[i + 1..j] + [s[j]] + s[j + 1..];
      assert multiset(s)[x] >= 1 + multiset([s[j]])[x];
      DistinctMultiplicity(t, x);
    }
  }

  lemma {:induction false} SubsetCardinality<T>(a: set<T>, b: set<T>)
    requires a <= b
    ensures |a| <= |b|
  {
    if a != {} {
      var x :| x in a;
      SubsetCardinality(a - {x}, b - {x});
    }
  }

  /** `Math.max(x, 0)`. */
  function Max0(x: int): (r: nat)
    ensures r >= x && (r == 0 || r == x)
  {
    if x > 0 then x else 0
  }

  /** `Math.abs` on integers. */
  function Abs(x: int): (r: nat)
    ensures r == x || r == -x
  {
    if x < 0 then -x else x
  }
}
