/**
 * The final ordering of `solve`: `validTeams.sort(comparator)`. The
 * JavaScript sort is stable, so the sorted list is the stable insertion
 * sort of the discovery order under the comparator.
 */
module Ranking {
  import opened Catalog

  /** The comparator handed to `sort`: negative puts `a` first. */
  function Compare(a: TeamResult, b: TeamResult): int {
    if a.size != b.size then a.size - b.size
    else if b.score != a.score then b.score - a.score
    else a.totalCost - b.totalCost
  }

  /** `a` may come before `b`: fewer units, or as many and a higher score, or both equal and no higher cost. */
  predicate InOrder(a: TeamResult, b: TeamResult) {
    a.size < b.size
    || (a.size == b.size && a.score > b.score)
    || (a.size == b.size && a.score == b.score && a.totalCost <= b.totalCost)
  }

  /** The comparator allows `a` first exactly when the three keys are in order. */
  lemma CompareIsInOrder(a: TeamResult, b: TeamResult)
    ensures Compare(a, b) <= 0 <==> InOrder(a, b)
  {
  }

  lemma InOrderTotal(a: TeamResult, b: TeamResult)
    ensures InOrder(a, b) || InOrder(b, a)
  {
  }

  lemma InOrderTransitive(a: TeamResult, b: TeamResult, c: TeamResult)
    requires InOrder(a, b) && InOrder(b, c)
    ensures InOrder(a, c)
  {
  }

  predicate Sorted(s: seq<TeamResult>) {
    forall i, j :: 0 <= i < j < |s| ==> InOrder(s[i], s[j])
  }

  /** Puts `x` after every element the comparator does not place after it. */
  function Insert(x: TeamResult, s: seq<TeamResult>): seq<TeamResult> {
    if s == [] then [x]
    else if Compare(s[0], x) > 0 then [x] + s
    else [s[0]] + Insert(x, s[1..])
  }

  /** The stable sort of `s`: each element is inserted in discovery order. */
  function SortTeams(s: seq<TeamResult>): seq<TeamResult> {
    if s == [] then [] else Insert(s[|s| - 1], SortTeams(s[..|s| - 1]))
  }

  lemma {:induction false} InsertMultiset(x: TeamResult, s: seq<TeamResult>)
    ensures multiset(Insert(x, s)) == multiset(s) + multiset{x}
  {
    if s != [] && Compare(s[0], x) <= 0 {
      InsertMultiset(x, s[1..]);
      assert s == [s[0]] + s[1..];
    }
  }

  /** A head that may precede every element of a sorted list keeps it sorted. */
  lemma SortedCons(h: TeamResult, t: seq<TeamResult>)
    requires Sorted(t) && forall j :: 0 <= j < |t| ==> InOrder(h, t[j])
    ensures Sorted([h] + t)
  {
    var r := [h] + t;
    forall i, j | 0 <= i < j < |r| ensures InOrder(r[i], r[j]) {
      assert r[j] == t[j - 1];
      if i > 0 { assert r[i] == t[i - 1]; }
    }
  }

  lemma {:induction false} InsertSorted(x: TeamResult, s: seq<TeamResult>)
    requires Sorted(s)
    ensures Sorted(Insert(x, s))
  {
    if s != [] {
      if Compare(s[0], x) > 0 {
        forall j | 0 <= j < |s| ensures InOrder(x, s[j]) {
          if j > 0 { InOrderTransitive(x, s[0], s[j]); }
        }
        SortedCons(x, s);
      } else {
        var rest := s[1..];
        assert Sorted(rest) by {
          forall i, j | 0 <= i < j < |rest| ensures InOrder(rest[i], rest[j]) {
            assert rest[i] == s[i + 1] && rest[j] == s[j + 1];
          }
        }
        InsertSorted(x, rest);
        InsertMultiset(x, rest);
        var tail := Insert(x, rest);
        forall j | 0 <= j < |tail| ensures InOrder(s[0], tail[j]) {
          assert tail[j] in multiset(tail);
          assert tail[j] in multiset(rest) + multiset{x};
          if tail[j] != x {
            assert tail[j] in rest;
            var m :| 0 <= m < |rest| && rest[m] == tail[j];
            assert s[m + 1] == tail[j];
          }
        }
        SortedCons(s[0], tail);
      }
    }
  }

  /**
   * The returned list is ordered by the comparator (in particular every
   * adjacent pair is) and is a permutation of the discovered teams.
   */
  lemma {:induction false} SortTeamsCorrect(s: seq<TeamResult>)
    ensures Sorted(SortTeams(s))
    ensures forall i :: 0 <= i < |SortTeams(s)| - 1 ==> InOrder(SortTeams(s)[i], SortTeams(s)[i + 1])
    ensures multiset(SortTeams(s)) == multiset(s)
  {
    if s != [] {
      var init := s[..|s| - 1];
      SortTeamsCorrect(init);
      InsertSorted(s[|s| - 1], SortTeams(init));
      InsertMultiset(s[|s| - 1], SortTeams(init));
      assert s == init + [s[|s| - 1]];
    }
  }

  /** The three sort keys of a result. */
  function Key(r: TeamResult): (int, int, int) {
    (r.size, r.score, r.totalCost)
  }

  /** The results of `s` whose sort keys are `k`, in order. */
  function WithKey(s: seq<TeamResult>, k: (int, int, int)): seq<TeamResult> {
    if s == [] then [] else (if Key(s[0]) == k then [s[0]] else []) + WithKey(s[1..], k)
  }

  lemma {:induction false} WithKeyAppend(a: seq<TeamResult>, b: seq<TeamResult>, k: (int, int, int))
    ensures WithKey(a + b, k) == WithKey(a, k) + WithKey(b, k)
  {
    if a == [] {
      assert a + b == b;
    } else {
      assert (a + b)[1..] == a[1..] + b;
      WithKeyAppend(a[1..], b, k);
    }
  }

  /** The comparator looks only at the keys. */
  lemma InOrderByKey(a: TeamResult, b: TeamResult, c: TeamResult)
    requires Key(b) == Key(c)
    ensures InOrder(a, b) == InOrder(a, c)
  {
  }

  lemma {:induction false} InsertStable(x: TeamResult, s: seq<TeamResult>, k: (int, int, int))
    requires Sorted(s)
    ensures WithKey(Insert(x, s), k) == WithKey(s, k) + (if Key(x) == k then [x] else [])
  {
    if s == [] {
    } else if Compare(s[0], x) > 0 {
      if Key(x) == k {
        assert WithKey(s, k) == [] by { NoneWithKeyAfter(x, s, k); }
        assert [x] + s == [x] + s;
      }
    } else {
      assert Sorted(s[1..]) by {
        forall i, j | 0 <= i < j < |s[1..]| ensures InOrder(s[1..][i], s[1..][j]) {
          assert s[1..][i] == s[i + 1] && s[1..][j] == s[j + 1];
        }
      }
      InsertStable(x, s[1..], k);
    }
  }

  lemma {:induction false} NoneWithKeyAfter(x: TeamResult, s: seq<TeamResult>, k: (int, int, int))
    requires Sorted(s) && s != [] && !InOrder(s[0], x) && Key(x) == k
    ensures WithKey(s, k) == []
  {
    if |s| > 1 {
      assert Sorted(s[1..]) by {
        forall i, j | 0 <= i < j < |s[1..]| ensures InOrder(s[1..][i], s[1..][j]) {
          assert s[1..][i] == s[i + 1] && s[1..][j] == s[j + 1];
        }
      }
      assert InOrder(s[0], s[1]);
      if InOrder(s[1], x) { InOrderTransitive(s[0], s[1], x); }
      NoneWithKeyAfter(x, s[1..], k);
    }
    if Key(s[0]) == k { InOrderByKey(s[0], s[0], x); }
  }

  /**
   * The sort is stable: the teams sharing one key triple appear in the
   * returned list in the order in which they were discovered.
   */
  lemma {:induction false} SortTeamsStable(s: seq<TeamResult>, k: (int, int, int))
    ensures WithKey(SortTeams(s), k) == WithKey(s, k)
  {
    if s != [] {
      var init := s[..|s| - 1];
      var x := s[|s| - 1];
      assert WithKey([x], k) == (if Key(x) == k then [x] else []) by {
        assert [x][1..] == [];
      }
      calc {
        WithKey(SortTeams(s), k);
        { SortTeamsCorrect(init); InsertStable(x, SortTeams(init), k); }
        WithKey(SortTeams(init), k) + WithKey([x], k);
        { SortTeamsStable(init, k); }
        WithKey(init, k) + WithKey([x], k);
        { WithKeyAppend(init, [x], k); assert s == init + [x]; }
        WithKey(s, k);
      }
    }
  }
}
