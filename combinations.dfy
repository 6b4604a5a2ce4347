/**
 * What `generateCombinations(array, k)` enumerates. `Choose(lo, hi, k)` lists
 * the strictly increasing index sequences of length `k` drawn from `[lo, hi)`
 * in lexicographic order; `Combos(a, k)` turns each index sequence into the
 * elements of `a` it selects.
 */
module Combinations {
  import opened Collections

  predicate Increasing(c: seq<nat>) {
    forall i, j :: 0 <= i < j < |c| ==> c[i] < c[j]
  }

  predicate Within(c: seq<nat>, lo: nat, hi: nat) {
    forall i :: 0 <= i < |c| ==> lo <= c[i] < hi
  }

  /** Every entry of `cs` is an increasing index sequence of length `k` within `[lo, hi)`. */
  predicate Sound(cs: seq<seq<nat>>, k: nat, lo: nat, hi: nat) {
    forall m :: 0 <= m < |cs| ==> |cs[m]| == k && Increasing(cs[m]) && Within(cs[m], lo, hi)
  }

  /** Puts `x` in front of every sequence of `cs`. */
  function Prepend(x: nat, cs: seq<seq<nat>>): seq<seq<nat>>
  {
    seq(|cs|, i requires 0 <= i < |cs| => [x] + cs[i])
  }

  lemma PrependSound(x: nat, cs: seq<seq<nat>>, k: nat, hi: nat)
    requires x < hi && Sound(cs, k, x + 1, hi)
    ensures Sound(Prepend(x, cs), k + 1, x, hi)
  {
    var r := Prepend(x, cs);
    forall m | 0 <= m < |r| ensures |r[m]| == k + 1 && Increasing(r[m]) && Within(r[m], x, hi) {
      assert r[m] == [x] + cs[m];
      assert Within(cs[m], x + 1, hi);
      assert Increasing(cs[m]);
    }
  }

  /**
   * The index combinations, as the recursive helper visits them: first those
   * that use position `lo`, then those that do not.
   */
  function Choose(lo: nat, hi: nat, k: nat): (cs: seq<seq<nat>>)
    ensures Sound(cs, k, lo, hi)
    ensures forall m :: 0 <= m < |cs| ==> Within(cs[m], 0, hi)
    decreases hi - lo
  {
    if k == 0 then [[]]
    else if lo >= hi then []
    else
      var rest := Choose(lo + 1, hi, k - 1);
      var other := Choose(lo + 1, hi, k);
      PrependSound(lo, rest, k - 1, hi);
      assert Sound(other, k, lo, hi) by {
        forall m | 0 <= m < |other| ensures Within(other[m], lo, hi) {
          assert Within(other[m], lo + 1, hi);
        }
      }
      var cs := Prepend(lo, rest) + other;
      assert forall m :: 0 <= m < |cs| ==> Within(cs[m], 0, hi) by {
        forall m | 0 <= m < |cs| ensures Within(cs[m], 0, hi) {
          assert Within(cs[m], lo, hi);
        }
      }
      cs
  }

  /** Pascal's rule, the number of `k`-subsets of an `n`-set. */
  function Binomial(n: nat, k: nat): nat {
    if k == 0 then 1 else if n == 0 then 0 else Binomial(n - 1, k - 1) + Binomial(n - 1, k)
  }

  lemma {:induction false} BinomialTooLarge(n: nat, k: nat)
    requires k > n
    ensures Binomial(n, k) == 0
  {
    if n > 0 { BinomialTooLarge(n - 1, k - 1); BinomialTooLarge(n - 1, k); }
  }

  /** There are C(hi - lo, k) index combinations. */
  lemma {:induction false} ChooseCount(lo: nat, hi: nat, k: nat)
    ensures |Choose(lo, hi, k)| == Binomial(if lo <= hi then hi - lo else 0, k)
    decreases hi - lo
  {
    if k != 0 && lo < hi {
      ChooseCount(lo + 1, hi, k - 1);
      ChooseCount(lo + 1, hi, k);
    }
  }

  /** Every increasing index sequence of length `k` within `[lo, hi)` is enumerated. */
  lemma ChooseUnfold(lo: nat, hi: nat, k: nat)
    requires k > 0 && lo < hi
    ensures Choose(lo, hi, k) == Prepend(lo, Choose(lo + 1, hi, k - 1)) + Choose(lo + 1, hi, k)
  {
  }

  lemma TailIncreasing(c: seq<nat>, lo: nat, hi: nat)
    requires |c| > 0 && Increasing(c) && Within(c, lo, hi)
    ensures Increasing(c[1..]) && Within(c[1..], c[0] + 1, hi)
  {
    var tail := c[1..];
    forall i | 0 <= i < |tail| ensures c[0] + 1 <= tail[i] < hi {
      assert tail[i] == c[i + 1];
    }
    forall i, j | 0 <= i < j < |tail| ensures tail[i] < tail[j] {
      assert tail[i] == c[i + 1] && tail[j] == c[j + 1];
    }
  }

  lemma RaiseLow(c: seq<nat>, lo: nat, hi: nat)
    requires |c| > 0 && Increasing(c) && Within(c, lo, hi) && c[0] != lo
    ensures Within(c, lo + 1, hi)
  {
    forall i | 0 <= i < |c| ensures lo + 1 <= c[i] < hi {
      if i > 0 { assert c[0] < c[i]; }
    }
  }

  lemma PrependContains(x: nat, cs: seq<seq<nat>>, c: seq<nat>)
    requires c in cs
    ensures [x] + c in Prepend(x, cs)
  {
    var i :| 0 <= i < |cs| && cs[i] == c;
    assert Prepend(x, cs)[i] == [x] + c;
  }

  lemma {:induction false} ChooseComplete(lo: nat, hi: nat, k: nat, c: seq<nat>)
    requires |c| == k && Increasing(c) && Within(c, lo, hi)
    ensures c in Choose(lo, hi, k)
    decreases hi - lo
  {
    if k == 0 {
      assert c == [];
    } else {
      assert lo <= c[0] < hi;
      ChooseUnfold(lo, hi, k);
      var rest := Choose(lo + 1, hi, k - 1);
      var other := Choose(lo + 1, hi, k);
      var p := Prepend(lo, rest);
      if c[0] == lo {
        var tail := c[1..];
        TailIncreasing(c, lo, hi);
        ChooseComplete(lo + 1, hi, k - 1, tail);
        PrependContains(lo, rest, tail);
        assert [lo] + tail == c;
        assert c in p;
      } else {
        RaiseLow(c, lo, hi);
        ChooseComplete(lo + 1, hi, k, c);
        assert c in other;
      }
      assert c in p + other;
    }
  }

  /** Strict lexicographic order on index sequences. */
  predicate LexLess(a: seq<nat>, b: seq<nat>) {
    |a| > 0 && |b| > 0 && (a[0] < b[0] || (a[0] == b[0] && LexLess(a[1..], b[1..])))
  }

  lemma {:induction false} LexLessIrreflexive(a: seq<nat>)
    ensures !LexLess(a, a)
  {
    if |a| > 0 { LexLessIrreflexive(a[1..]); }
  }

  /**
   * The enumeration is in strictly increasing lexicographic order; in
   * particular no combination is listed twice.
   */
  lemma {:induction false} ChooseSorted(lo: nat, hi: nat, k: nat)
    ensures forall i, j :: 0 <= i < j < |Choose(lo, hi, k)| ==> LexLess(Choose(lo, hi, k)[i], Choose(lo, hi, k)[j])
    decreases hi - lo
  {
    if k != 0 && lo < hi {
      var rest := Choose(lo + 1, hi, k - 1);
      var other := Choose(lo + 1, hi, k);
      var cs := Choose(lo, hi, k);
      var p := Prepend(lo, rest);
      assert cs == p + other;
      ChooseSorted(lo + 1, hi, k - 1);
      ChooseSorted(lo + 1, hi, k);
      forall i, j | 0 <= i < j < |cs| ensures LexLess(cs[i], cs[j]) {
        if j < |p| {
          assert cs[i] == [lo] + rest[i] && cs[j] == [lo] + rest[j];
          assert cs[i][1..] == rest[i] && cs[j][1..] == rest[j];
        } else if i < |p| {
          assert cs[i] == [lo] + rest[i];
          assert cs[j] == other[j - |p|];
        } else {
          assert cs[i] == other[i - |p|] && cs[j] == other[j - |p|];
        }
      }
    }
  }

  lemma ChooseDistinct(lo: nat, hi: nat, k: nat)
    ensures forall i, j :: 0 <= i < j < |Choose(lo, hi, k)| ==> Choose(lo, hi, k)[i] != Choose(lo, hi, k)[j]
  {
    ChooseSorted(lo, hi, k);
    forall i, j | 0 <= i < j < |Choose(lo, hi, k)| ensures Choose(lo, hi, k)[i] != Choose(lo, hi, k)[j] {
      LexLessIrreflexive(Choose(lo, hi, k)[i]);
    }
  }

  /** The elements of `a` at the positions `idx`, in that order. */
  function Pick<T>(a: seq<T>, idx: seq<nat>): seq<T>
    requires Within(idx, 0, |a|)
  {
    seq(|idx|, i requires 0 <= i < |idx| => a[idx[i]])
  }

  /** Distinct positions of a sequence without repetitions select distinct elements. */
  lemma PickDistinct<T>(a: seq<T>, idx: seq<nat>)
    requires Within(idx, 0, |a|) && Increasing(idx) && Distinct(a)
    ensures Distinct(Pick(a, idx))
  {
    var p := Pick(a, idx);
    forall i, j | 0 <= i < j < |p| ensures p[i] != p[j] {
      assert idx[i] < idx[j];
    }
  }

  /** `combo` followed by the elements selected by each index sequence of `cs`. */
  function Extend<T>(a: seq<T>, combo: seq<T>, cs: seq<seq<nat>>): seq<seq<T>>
    requires forall m :: 0 <= m < |cs| ==> Within(cs[m], 0, |a|)
  {
    seq(|cs|, i requires 0 <= i < |cs| => combo + Pick(a, cs[i]))
  }

  /** The `k`-element combinations of `a`, as `generateCombinations` lists them. */
  function Combos<T>(a: seq<T>, k: nat): seq<seq<T>>
  {
    Extend(a, [], Choose(0, |a|, k))
  }

  /**
   * The combinations of `a` are exactly C(|a|, k) many: one per increasing
   * index sequence, each of length `k`; `k = 0` gives one empty combination
   * and `k > |a|` gives none.
   */
  lemma CombosShape<T>(a: seq<T>, k: nat)
    ensures |Combos(a, k)| == |Choose(0, |a|, k)| == Binomial(|a|, k)
    ensures forall i :: 0 <= i < |Combos(a, k)| ==>
      Combos(a, k)[i] == Pick(a, Choose(0, |a|, k)[i]) && |Combos(a, k)[i]| == k
    ensures k == 0 ==> Combos(a, k) == [[]]
    ensures k > |a| ==> Combos(a, k) == []
  {
    ChooseCount(0, |a|, k);
    var cs := Choose(0, |a|, k);
    forall i | 0 <= i < |cs| ensures Combos(a, k)[i] == Pick(a, cs[i]) && |Combos(a, k)[i]| == k {
      assert Combos(a, k)[i] == [] + Pick(a, cs[i]);
    }
    if k > |a| { BinomialTooLarge(|a|, k); }
    if k == 0 { assert Combos(a, k)[0] == [] + Pick(a, []); }
  }

  /** The elements at every increasing index sequence occur among the combinations of `a`. */
  lemma CombosComplete<T>(a: seq<T>, k: nat, c: seq<nat>)
    requires |c| == k && Increasing(c) && Within(c, 0, |a|)
    ensures Pick(a, c) in Combos(a, k)
  {
    ChooseComplete(0, |a|, k, c);
    var cs := Choose(0, |a|, k);
    var i :| 0 <= i < |cs| && cs[i] == c;
    assert Combos(a, k)[i] == [] + Pick(a, c) == Pick(a, c);
  }

  /** Each combination of `a` is the elements at some increasing sequence of positions in `a`. */
  lemma CombosSound<T>(a: seq<T>, k: nat, combo: seq<T>)
    requires combo in Combos(a, k)
    ensures exists c :: |c| == k && Increasing(c) && Within(c, 0, |a|) && combo == Pick(a, c)
  {
    var cs := Choose(0, |a|, k);
    var i :| 0 <= i < |Combos(a, k)| && Combos(a, k)[i] == combo;
    assert combo == [] + Pick(a, cs[i]);
    assert |cs[i]| == k && Increasing(cs[i]) && Within(cs[i], 0, |a|);
  }

  /** A combination has `k` elements, all drawn from `a`, and none repeated when `a` has no repetitions. */
  lemma CombosMembers<T>(a: seq<T>, k: nat, combo: seq<T>)
    requires combo in Combos(a, k)
    ensures |combo| == k
    ensures forall x :: x in combo ==> x in a
    ensures Distinct(a) ==> Distinct(combo)
  {
    CombosSound(a, k, combo);
    var c :| |c| == k && Increasing(c) && Within(c, 0, |a|) && combo == Pick(a, c);
    forall x | x in combo ensures x in a {
      var i :| 0 <= i < |combo| && combo[i] == x;
      assert x == a[c[i]];
    }
    if Distinct(a) {
      PickDistinct(a, c);
    }
  }

  lemma ExtendAppend<T>(a: seq<T>, combo: seq<T>, cs: seq<seq<nat>>, ds: seq<seq<nat>>)
    requires forall m :: 0 <= m < |cs| ==> Within(cs[m], 0, |a|)
    requires forall m :: 0 <= m < |ds| ==> Within(ds[m], 0, |a|)
    ensures Extend(a, combo, cs + ds) == Extend(a, combo, cs) + Extend(a, combo, ds)
  {
    var all := cs + ds;
    assert forall m :: 0 <= m < |all| ==> Within(all[m], 0, |a|) by {
      forall m | 0 <= m < |all| ensures Within(all[m], 0, |a|) {
        if m < |cs| { assert all[m] == cs[m]; } else { assert all[m] == ds[m - |cs|]; }
      }
    }
    var lhs := Extend(a, combo, all);
    var rhs := Extend(a, combo, cs) + Extend(a, combo, ds);
    forall m | 0 <= m < |lhs| ensures lhs[m] == rhs[m] {
      if m < |cs| { assert all[m] == cs[m]; } else { assert all[m] == ds[m - |cs|]; }
    }
  }

  lemma ExtendPrepend<T>(a: seq<T>, combo: seq<T>, i: nat, rest: seq<seq<nat>>)
    requires i < |a|
    requires forall m :: 0 <= m < |rest| ==> Within(rest[m], 0, |a|)
    ensures forall m :: 0 <= m < |Prepend(i, rest)| ==> Within(Prepend(i, rest)[m], 0, |a|)
    ensures Extend(a, combo, Prepend(i, rest)) == Extend(a, combo + [a[i]], rest)
  {
    var p := Prepend(i, rest);
    forall m | 0 <= m < |p| ensures Within(p[m], 0, |a|) {
      assert p[m] == [i] + rest[m];
    }
    var lhs := Extend(a, combo, p);
    var rhs := Extend(a, combo + [a[i]], rest);
    forall m | 0 <= m < |lhs| ensures lhs[m] == rhs[m] {
      assert p[m] == [i] + rest[m];
      assert Pick(a, p[m]) == [a[i]] + Pick(a, rest[m]);
    }
  }

  /** One step of the recursive helper: using position `i` first, then not using it. */
  lemma ExtendStep<T>(a: seq<T>, combo: seq<T>, i: nat, j: nat)
    requires i < |a| && j > 0
    ensures Extend(a, combo, Choose(i, |a|, j))
      == Extend(a, combo + [a[i]], Choose(i + 1, |a|, j - 1)) + Extend(a, combo, Choose(i + 1, |a|, j))
  {
    var rest := Choose(i + 1, |a|, j - 1);
    var other := Choose(i + 1, |a|, j);
    assert Choose(i, |a|, j) == Prepend(i, rest) + other;
    ExtendPrepend(a, combo, i, rest);
    ExtendAppend(a, combo, Prepend(i, rest), other);
  }

  /** The helper at a complete combination: the one completion is the combination itself. */
  lemma ExtendComplete<T>(a: seq<T>, combo: seq<T>, lo: nat)
    ensures Extend(a, combo, Choose(lo, |a|, 0)) == [combo]
  {
    assert Pick(a, []) == [];
    assert combo + [] == combo;
  }

  /** The helper past the last position with elements still missing: no completion. */
  lemma ExtendExhausted<T>(a: seq<T>, combo: seq<T>, j: nat)
    requires j > 0
    ensures Extend(a, combo, Choose(|a|, |a|, j)) == []
  {
  }

  /**
   * The completions of `combo` by `j` more elements taken at increasing
   * positions from `lo` on, in the order the recursive helper pushes them:
   * first those that take position `lo`, then those that skip it.
   */
  function Completions<T>(a: seq<T>, combo: seq<T>, lo: nat, j: nat): seq<seq<T>>
    decreases |a| - lo
  {
    if j == 0 then [combo]
    else if lo >= |a| then []
    else Completions(a, combo + [a[lo]], lo + 1, j - 1) + Completions(a, combo, lo + 1, j)
  }

  /** The helper's recursion enumerates exactly the index combinations of `Choose`. */
  lemma {:induction false} CompletionsAreExtensions<T>(a: seq<T>, combo: seq<T>, lo: nat, j: nat)
    requires lo <= |a|
    ensures Completions(a, combo, lo, j) == Extend(a, combo, Choose(lo, |a|, j))
    decreases |a| - lo
  {
    if j == 0 {
      ExtendComplete(a, combo, lo);
    } else if lo == |a| {
      ExtendExhausted(a, combo, j);
    } else {
      CompletionsAreExtensions(a, combo + [a[lo]], lo + 1, j - 1);
      CompletionsAreExtensions(a, combo, lo + 1, j);
      ExtendStep(a, combo, lo, j);
    }
  }
}
