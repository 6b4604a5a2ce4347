/**
 * Trait counting and breakpoint evaluation (`getActiveOrigins` and
 * `getActiveTraits`), as functions on values. The counting dictionary of
 * the source is a `Tally`: its keys in insertion order (the order
 * `Object.entries` returns them in) and the count of each key.
 */
module Traits {
  import opened Collections
  import opened Catalog

  /** The trait that marks an anchor unit. */
  const AnchorTrait := "Targon"

  /** A counting object: its keys in insertion order and the count of each. */
  datatype Tally = Tally(keys: seq<string>, counts: map<string, nat>)

  /** `counts[x] = (counts[x] || 0) + 1` */
  function Bump(t: Tally, x: string): Tally {
    if x in t.counts then Tally(t.keys, t.counts[x := t.counts[x] + 1])
    else Tally(t.keys + [x], t.counts[x := 1])
  }

  /** The counting object after counting every element of `xs`, in order. */
  function TallyOf(xs: seq<string>): (t: Tally)
    ensures forall k :: k in t.keys <==> k in t.counts
  {
    if xs == [] then Tally([], map[]) else Bump(TallyOf(xs[..|xs| - 1]), xs[|xs| - 1])
  }

  /**
   * Each element of `xs` becomes a key exactly once, and its count is the
   * number of times it occurs in `xs`.
   */
  lemma {:induction false} TallyOfCounts(xs: seq<string>)
    ensures Distinct(TallyOf(xs).keys)
    ensures forall k :: k in TallyOf(xs).keys <==> k in xs
    ensures forall k :: k in TallyOf(xs).counts ==> TallyOf(xs).counts[k] == multiset(xs)[k]
  {
    if xs != [] {
      var init := xs[..|xs| - 1];
      var x := xs[|xs| - 1];
      assert xs == init + [x];
      TallyOfCounts(init);
      var t := TallyOf(init);
      if x in t.counts {
        assert x in init;
      } else {
        assert x !in t.keys;
      }
    }
  }

  /** The trait names of the team's units, unit by unit, in order. */
  function Occurrences(team: seq<Champion>): seq<string> {
    if team == [] then [] else Occurrences(team[..|team| - 1]) + team[|team| - 1].traits
  }

  lemma OccurrencesAppend(team: seq<Champion>, c: Champion)
    ensures Occurrences(team + [c]) == Occurrences(team) + c.traits
  {
    assert (team + [c])[..|team|] == team;
  }

  /** The elements of `xs` that belong to `names`. */
  function Only(xs: seq<string>, names: set<string>): seq<string> {
    if xs == [] then []
    else Only(xs[..|xs| - 1], names) + (if xs[|xs| - 1] in names then [xs[|xs| - 1]] else [])
  }

  /** The non-empty strings of `xs` (the truthiness test `if (emblem)`). */
  function Present(xs: seq<string>): seq<string> {
    if xs == [] then []
    else Present(xs[..|xs| - 1]) + (if xs[|xs| - 1] != "" then [xs[|xs| - 1]] else [])
  }

  lemma {:induction false} OnlyCount(xs: seq<string>, names: set<string>, x: string)
    ensures multiset(Only(xs, names))[x] == if x in names then multiset(xs)[x] else 0
  {
    if xs != [] {
      assert xs == xs[..|xs| - 1] + [xs[|xs| - 1]];
      OnlyCount(xs[..|xs| - 1], names, x);
    }
  }

  lemma {:induction false} OnlyAppend(xs: seq<string>, ys: seq<string>, names: set<string>)
    ensures Only(xs + ys, names) == Only(xs, names) + Only(ys, names)
    decreases |ys|
  {
    if ys != [] {
      var init := ys[..|ys| - 1];
      assert (xs + ys)[..|xs + ys| - 1] == xs + init;
      OnlyAppend(xs, init, names);
    } else {
      assert xs + ys == xs;
    }
  }

  lemma TallyOfSnoc(xs: seq<string>, x: string)
    ensures TallyOf(xs + [x]) == Bump(TallyOf(xs), x)
  {
    assert (xs + [x])[..|xs|] == xs;
  }

  lemma OnlySnoc(xs: seq<string>, x: string, names: set<string>)
    ensures Only(xs + [x], names) == Only(xs, names) + (if x in names then [x] else [])
  {
    assert (xs + [x])[..|xs|] == xs;
  }

  lemma PresentSnoc(xs: seq<string>, x: string)
    ensures Present(xs + [x]) == Present(xs) + (if x != "" then [x] else [])
  {
    assert (xs + [x])[..|xs|] == xs;
  }

  // ----- one step of each counting loop -----

  /** The trait names of a team prefix grow by the traits of the next unit. */
  lemma OccurrencesPrefix(team: seq<Champion>, i: nat)
    requires i < |team|
    ensures Occurrences(team[..i + 1]) == Occurrences(team[..i]) + team[i].traits
  {
    assert team[..i + 1] == team[..i] + [team[i]];
    OccurrencesAppend(team[..i], team[i]);
  }

  /** Counting the next trait of a unit, keeping only the names in `names`. */
  lemma CountOnlyStep(done: seq<string>, traits: seq<string>, j: nat, names: set<string>)
    requires j < |traits|
    ensures TallyOf(Only(done + traits[..j + 1], names))
      == if traits[j] in names then Bump(TallyOf(Only(done + traits[..j], names)), traits[j])
         else TallyOf(Only(done + traits[..j], names))
  {
    assert done + traits[..j + 1] == (done + traits[..j]) + [traits[j]];
    OnlySnoc(done + traits[..j], traits[j], names);
    if traits[j] in names {
      TallyOfSnoc(Only(done + traits[..j], names), traits[j]);
    } else {
      assert Only(done + traits[..j], names) + [] == Only(done + traits[..j], names);
    }
  }

  /** Counting the next trait of a unit. */
  lemma CountStep(done: seq<string>, traits: seq<string>, j: nat)
    requires j < |traits|
    ensures TallyOf(done + traits[..j + 1]) == Bump(TallyOf(done + traits[..j]), traits[j])
  {
    assert done + traits[..j + 1] == (done + traits[..j]) + [traits[j]];
    TallyOfSnoc(done + traits[..j], traits[j]);
  }

  /** Counting the next emblem in `getActiveOrigins`: every non-empty emblem counts. */
  lemma CountEmblemStep(counted: seq<string>, emblems: seq<string>, e: nat)
    requires e < |emblems|
    ensures TallyOf(counted + Present(emblems[..e + 1]))
      == if emblems[e] != "" then Bump(TallyOf(counted + Present(emblems[..e])), emblems[e])
         else TallyOf(counted + Present(emblems[..e]))
  {
    assert emblems[..e + 1] == emblems[..e] + [emblems[e]];
    PresentSnoc(emblems[..e], emblems[e]);
    if emblems[e] != "" {
      assert counted + Present(emblems[..e + 1]) == (counted + Present(emblems[..e])) + [emblems[e]];
      TallyOfSnoc(counted + Present(emblems[..e]), emblems[e]);
    } else {
      assert Present(emblems[..e]) + [] == Present(emblems[..e]);
    }
  }

  /** Counting the next emblem in `getActiveTraits`: only non-empty emblems naming origins count. */
  lemma CountOriginEmblemStep(counted: seq<string>, emblems: seq<string>, e: nat, names: set<string>)
    requires e < |emblems|
    ensures TallyOf(counted + Only(Present(emblems[..e + 1]), names))
      == if emblems[e] != "" && emblems[e] in names
         then Bump(TallyOf(counted + Only(Present(emblems[..e]), names)), emblems[e])
         else TallyOf(counted + Only(Present(emblems[..e]), names))
  {
    var before := Present(emblems[..e]);
    assert emblems[..e + 1] == emblems[..e] + [emblems[e]];
    PresentSnoc(emblems[..e], emblems[e]);
    if emblems[e] != "" {
      OnlySnoc(before, emblems[e], names);
      if emblems[e] in names {
        assert counted + Only(Present(emblems[..e + 1]), names) == (counted + Only(before, names)) + [emblems[e]];
        TallyOfSnoc(counted + Only(before, names), emblems[e]);
      } else {
        assert Only(before, names) + [] == Only(before, names);
      }
    } else {
      assert before + [] == before;
    }
  }

  /** What `getActiveOrigins` counts: the team's origin traits, then every non-empty emblem. */
  function OriginStream(originNames: set<string>, team: seq<Champion>, emblems: seq<string>): seq<string> {
    Only(Occurrences(team), originNames) + Present(emblems)
  }

  /** What `getActiveTraits` counts: every trait of the team, then the emblems that name origins. */
  function TraitStream(originNames: set<string>, team: seq<Champion>, emblems: seq<string>): seq<string> {
    Occurrences(team) + Only(Present(emblems), originNames)
  }

  /** The count `getActiveOrigins` reaches for `x`; emblems count whatever they name. */
  function OriginCountOf(originNames: set<string>, team: seq<Champion>, emblems: seq<string>, x: string): nat {
    (if x in originNames then multiset(Occurrences(team))[x] else 0) + multiset(Present(emblems))[x]
  }

  /** The count `getActiveTraits` reaches for `x`; emblems count only when `x` is an origin. */
  function TraitCountOf(originNames: set<string>, team: seq<Champion>, emblems: seq<string>, x: string): nat {
    multiset(Occurrences(team))[x] + (if x in originNames then multiset(Present(emblems))[x] else 0)
  }

  lemma OriginStreamCount(originNames: set<string>, team: seq<Champion>, emblems: seq<string>, x: string)
    ensures multiset(OriginStream(originNames, team, emblems))[x] == OriginCountOf(originNames, team, emblems, x)
  {
    OnlyCount(Occurrences(team), originNames, x);
  }

  lemma TraitStreamCount(originNames: set<string>, team: seq<Champion>, emblems: seq<string>, x: string)
    ensures multiset(TraitStream(originNames, team, emblems))[x] == TraitCountOf(originNames, team, emblems, x)
  {
    OnlyCount(Present(emblems), originNames, x);
  }

  /** `breakpoints.some(bp => count >= bp)` */
  predicate Reached(bps: seq<int>, count: int) {
    exists i | 0 <= i < |bps| :: count >= bps[i]
  }

  /** The active-origin list built from the keys of a counting object, in key order. */
  function SelectOrigins(table: map<string, seq<int>>, keys: seq<string>, counts: map<string, nat>): seq<OriginCount>
    requires forall k :: k in keys ==> k in counts
  {
    if keys == [] then []
    else
      var k := keys[|keys| - 1];
      SelectOrigins(table, keys[..|keys| - 1], counts)
        + (if Reached(BreakpointsOf(table, k), counts[k]) then [OriginCount(k, counts[k])] else [])
  }

  /** One step of the loop over the counted keys in `getActiveOrigins`. */
  lemma SelectOriginsStep(table: map<string, seq<int>>, keys: seq<string>, counts: map<string, nat>, k: nat)
    requires k < |keys| && forall x :: x in keys ==> x in counts
    ensures forall x :: x in keys[..k] ==> x in counts
    ensures SelectOrigins(table, keys[..k + 1], counts)
      == SelectOrigins(table, keys[..k], counts)
        + (if Reached(BreakpointsOf(table, keys[k]), counts[keys[k]]) then [OriginCount(keys[k], counts[keys[k]])] else [])
  {
    assert keys[..k + 1][..k] == keys[..k];
    assert forall x :: x in keys[..k + 1] ==> x in keys;
  }

  /** The result of `getActiveOrigins(team, emblems)`. */
  function ActiveOrigins(originNames: set<string>, table: map<string, seq<int>>, team: seq<Champion>, emblems: seq<string>): seq<OriginCount> {
    var t := TallyOf(OriginStream(originNames, team, emblems));
    SelectOrigins(table, t.keys, t.counts)
  }

  /** The last breakpoint of `bps` that `count` reaches (the `activeBreakpoint` loop). */
  function LastReached(bps: seq<int>, count: int): Option<int> {
    if bps == [] then None
    else if count >= bps[|bps| - 1] then Some(bps[|bps| - 1])
    else LastReached(bps[..|bps| - 1], count)
  }

  /** One step of the `activeBreakpoint` loop. */
  lemma LastReachedStep(bps: seq<int>, count: int, b: nat)
    requires b < |bps|
    ensures LastReached(bps[..b + 1], count)
      == if count >= bps[b] then Some(bps[b]) else LastReached(bps[..b], count)
  {
    assert bps[..b + 1][..b] == bps[..b];
  }

  /** The active-trait list built from the keys of a counting object, in key order. */
  function SelectTraits(
    originNames: set<string>, table: map<string, seq<int>>, keys: seq<string>, counts: map<string, nat>): seq<ActiveTrait>
    requires forall k :: k in keys ==> k in counts
  {
    if keys == [] then []
    else
      var k := keys[|keys| - 1];
      var found := LastReached(BreakpointsOf(table, k), counts[k]);
      SelectTraits(originNames, table, keys[..|keys| - 1], counts)
        + (if found.Some? then [ActiveTrait(k, counts[k], found.value, k in originNames)] else [])
  }

  /** One step of the loop over the counted keys in `getActiveTraits`. */
  lemma SelectTraitsStep(
    originNames: set<string>, table: map<string, seq<int>>, keys: seq<string>, counts: map<string, nat>, k: nat)
    requires k < |keys| && forall x :: x in keys ==> x in counts
    ensures forall x :: x in keys[..k] ==> x in counts
    ensures SelectTraits(originNames, table, keys[..k + 1], counts)
      == SelectTraits(originNames, table, keys[..k], counts)
        + (var found := LastReached(BreakpointsOf(table, keys[k]), counts[keys[k]]);
           if found.Some? then [ActiveTrait(keys[k], counts[keys[k]], found.value, keys[k] in originNames)] else [])
  {
    assert keys[..k + 1][..k] == keys[..k];
    assert forall x :: x in keys[..k + 1] ==> x in keys;
  }

  /** The result of `getActiveTraits(team, emblems)`. */
  function ActiveTraits(originNames: set<string>, table: map<string, seq<int>>, team: seq<Champion>, emblems: seq<string>): seq<ActiveTrait> {
    var t := TallyOf(TraitStream(originNames, team, emblems));
    SelectTraits(originNames, table, t.keys, t.counts)
  }

  /**
   * The names of an origin listing. `OriginCount` and `ActiveTrait` are two
   * record types of the source, so each listing has its own projection.
   */
  function OriginNamesOf(os: seq<OriginCount>): (r: seq<string>)
    ensures |r| == |os| && forall i :: 0 <= i < |os| ==> r[i] == os[i].name
  {
    seq(|os|, i requires 0 <= i < |os| => os[i].name)
  }

  /** The names of a trait listing, the counterpart of `OriginNamesOf` for `ActiveTrait` records. */
  function TraitNamesOf(ts: seq<ActiveTrait>): (r: seq<string>)
    ensures |r| == |ts| && forall i :: 0 <= i < |ts| ==> r[i] == ts[i].name
  {
    seq(|ts|, i requires 0 <= i < |ts| => ts[i].name)
  }

  lemma OriginNamesAppend(xs: seq<OriginCount>, ys: seq<OriginCount>)
    ensures OriginNamesOf(xs + ys) == OriginNamesOf(xs) + OriginNamesOf(ys)
  {
    var lhs := OriginNamesOf(xs + ys);
    var rhs := OriginNamesOf(xs) + OriginNamesOf(ys);
    forall i | 0 <= i < |lhs| ensures lhs[i] == rhs[i] {
      if i < |xs| { assert (xs + ys)[i] == xs[i]; } else { assert (xs + ys)[i] == ys[i - |xs|]; }
    }
  }

  lemma TraitNamesAppend(xs: seq<ActiveTrait>, ys: seq<ActiveTrait>)
    ensures TraitNamesOf(xs + ys) == TraitNamesOf(xs) + TraitNamesOf(ys)
  {
    var lhs := TraitNamesOf(xs + ys);
    var rhs := TraitNamesOf(xs) + TraitNamesOf(ys);
    forall i | 0 <= i < |lhs| ensures lhs[i] == rhs[i] {
      if i < |xs| { assert (xs + ys)[i] == xs[i]; } else { assert (xs + ys)[i] == ys[i - |xs|]; }
    }
  }

  // ----- breakpoint tiering -----

  /** The last reached breakpoint exists exactly when some breakpoint is reached. */
  lemma {:induction false} LastReachedExists(bps: seq<int>, count: int)
    ensures LastReached(bps, count).Some? <==> Reached(bps, count)
  {
    if bps != [] {
      var init := bps[..|bps| - 1];
      LastReachedExists(init, count);
      if Reached(bps, count) && count < bps[|bps| - 1] {
        var i :| 0 <= i < |bps| && count >= bps[i];
        assert init[i] == bps[i];
      }
      if Reached(init, count) {
        var i :| 0 <= i < |init| && count >= init[i];
        assert bps[i] == init[i];
      }
    }
  }

  /** The reported breakpoint is reached and no later breakpoint is. */
  lemma {:induction false} LastReachedIsLast(bps: seq<int>, count: int)
    requires LastReached(bps, count).Some?
    ensures exists i :: 0 <= i < |bps| && bps[i] == LastReached(bps, count).value <= count
                     && (forall j :: i < j < |bps| ==> bps[j] > count)
  {
    var n := |bps| - 1;
    if count < bps[n] {
      var init := bps[..n];
      LastReachedIsLast(init, count);
      var i :| 0 <= i < |init| && init[i] == LastReached(init, count).value <= count
        && forall j :: i < j < |init| ==> init[j] > count;
      assert bps[i] == init[i];
      assert forall j :: i < j < n ==> bps[j] == init[j];
    }
  }

  predicate StrictlyIncreasing(bps: seq<int>) {
    forall i, j :: 0 <= i < j < |bps| ==> bps[i] < bps[j]
  }

  /** For an increasing list the reported breakpoint is the largest one reached. */
  lemma LastReachedIsHighest(bps: seq<int>, count: int)
    requires StrictlyIncreasing(bps) && LastReached(bps, count).Some?
    ensures LastReached(bps, count).value in bps && LastReached(bps, count).value <= count
    ensures forall bp :: bp in bps && bp <= count ==> bp <= LastReached(bps, count).value
  {
    LastReachedIsLast(bps, count);
    var i :| 0 <= i < |bps| && bps[i] == LastReached(bps, count).value <= count
      && forall j :: i < j < |bps| ==> bps[j] > count;
    forall bp | bp in bps && bp <= count ensures bp <= bps[i] {
      var j :| 0 <= j < |bps| && bps[j] == bp;
      if j > i { assert bps[j] > count; }
    }
  }

  /** Breakpoints [2, 4, 6]: a count of 5 sits at tier 4, a count of 1 is inactive. */
  lemma TieringExample()
    ensures LastReached([2, 4, 6], 5) == Some(4)
    ensures !Reached([2, 4, 6], 1)
  {
  }

  /** For a non-empty increasing list, some breakpoint is reached iff the first one is. */
  lemma ReachedIffFirst(bps: seq<int>, count: int)
    requires |bps| > 0 && StrictlyIncreasing(bps)
    ensures Reached(bps, count) <==> count >= bps[0]
  {
    if Reached(bps, count) {
      var i :| 0 <= i < |bps| && count >= bps[i];
      if i > 0 { assert bps[0] < bps[i]; }
    }
  }

  /** Activation is monotone in the count. */
  lemma ReachedMonotone(bps: seq<int>, count: int, more: int)
    requires Reached(bps, count) && count <= more
    ensures Reached(bps, more)
  {
    var i :| 0 <= i < |bps| && count >= bps[i];
    assert more >= bps[i];
  }

  /** `breakpoints.filter(bp => count >= bp).length` */
  function MetCount(bps: seq<int>, count: int): nat {
    if bps == [] then 0
    else MetCount(bps[..|bps| - 1], count) + (if count >= bps[|bps| - 1] then 1 else 0)
  }

  lemma {:induction false} MetCountAll(bps: seq<int>, count: int)
    requires forall i :: 0 <= i < |bps| ==> count >= bps[i]
    ensures MetCount(bps, count) == |bps|
  {
    if bps != [] { MetCountAll(bps[..|bps| - 1], count); }
  }

  /**
   * Some breakpoint is met iff the number of breakpoints met is positive; for
   * an increasing list the met breakpoints are a prefix, so that number is
   * the position of the tier (the last breakpoint reached) plus one.
   */
  lemma {:induction false} MetCountIsTier(bps: seq<int>, count: int)
    ensures MetCount(bps, count) > 0 <==> Reached(bps, count)
    ensures StrictlyIncreasing(bps) && Reached(bps, count) ==>
      0 < MetCount(bps, count) <= |bps| && LastReached(bps, count) == Some(bps[MetCount(bps, count) - 1])
  {
    LastReachedExists(bps, count);
    if bps != [] {
      var n := |bps| - 1;
      var init := bps[..n];
      MetCountIsTier(init, count);
      LastReachedExists(init, count);
      if count >= bps[n] {
        if StrictlyIncreasing(bps) {
          MetCountAll(bps, count);
        }
      } else {
        assert MetCount(bps, count) == MetCount(init, count);
        assert StrictlyIncreasing(bps) ==> StrictlyIncreasing(init);
        if Reached(bps, count) {
          var i :| 0 <= i < |bps| && count >= bps[i];
          assert init[i] == bps[i];
        }
        if MetCount(init, count) > 0 && MetCount(init, count) <= |init| {
          assert init[MetCount(init, count) - 1] == bps[MetCount(init, count) - 1];
        }
      }
    }
  }

  // ----- the selection step -----

  lemma {:induction false} SelectOriginsMembers(table: map<string, seq<int>>, keys: seq<string>, counts: map<string, nat>)
    requires forall k :: k in keys ==> k in counts
    ensures forall i :: 0 <= i < |SelectOrigins(table, keys, counts)| ==>
      var o := SelectOrigins(table, keys, counts)[i];
      o.name in keys && o.count == counts[o.name] && Reached(BreakpointsOf(table, o.name), o.count)
  {
    if keys != [] {
      var init := keys[..|keys| - 1];
      SelectOriginsMembers(table, init, counts);
    }
  }

  lemma {:induction false} SelectOriginsComplete(table: map<string, seq<int>>, keys: seq<string>, counts: map<string, nat>)
    requires forall k :: k in keys ==> k in counts
    ensures forall k :: k in keys && Reached(BreakpointsOf(table, k), counts[k]) ==>
      k in OriginNamesOf(SelectOrigins(table, keys, counts))
  {
    if keys != [] {
      var init := keys[..|keys| - 1];
      var k := keys[|keys| - 1];
      assert keys == init + [k];
      SelectOriginsComplete(table, init, counts);
      var s := SelectOrigins(table, init, counts);
      var all := SelectOrigins(table, keys, counts);
      assert OriginNamesOf(all) == OriginNamesOf(s) + (if |all| > |s| then [k] else []);
    }
  }

  /** The names `getActiveOrigins` lists grow by the last key exactly when it reaches a breakpoint. */
  lemma SelectOriginsNamesSnoc(table: map<string, seq<int>>, keys: seq<string>, counts: map<string, nat>)
    requires keys != [] && forall k :: k in keys ==> k in counts
    ensures forall k :: k in keys[..|keys| - 1] ==> k in counts
    ensures OriginNamesOf(SelectOrigins(table, keys, counts))
      == OriginNamesOf(SelectOrigins(table, keys[..|keys| - 1], counts))
        + (if Reached(BreakpointsOf(table, keys[|keys| - 1]), counts[keys[|keys| - 1]]) then [keys[|keys| - 1]] else [])
  {
    var init := keys[..|keys| - 1];
    var k := keys[|keys| - 1];
    assert forall x :: x in init ==> x in keys;
    var tail := if Reached(BreakpointsOf(table, k), counts[k]) then [OriginCount(k, counts[k])] else [];
    assert SelectOrigins(table, keys, counts) == SelectOrigins(table, init, counts) + tail;
    OriginNamesAppend(SelectOrigins(table, init, counts), tail);
  }


  lemma {:induction false} SelectOriginsDistinct(table: map<string, seq<int>>, keys: seq<string>, counts: map<string, nat>)
    requires forall k :: k in keys ==> k in counts
    requires Distinct(keys)
    ensures Distinct(OriginNamesOf(SelectOrigins(table, keys, counts)))
  {
    if keys != [] {
      var init := keys[..|keys| - 1];
      var k := keys[|keys| - 1];
      assert Distinct(init);
      assert k !in init;
      SelectOriginsDistinct(table, init, counts);
      SelectOriginsMembers(table, init, counts);
      var names := OriginNamesOf(SelectOrigins(table, init, counts));
      assert k !in names;
      SelectOriginsNamesSnoc(table, keys, counts);
      DistinctSnoc(names, if Reached(BreakpointsOf(table, k), counts[k]) then [k] else [], k);
    }
  }

  /** The keys that reach a breakpoint grow by the last key exactly when it reaches one. */
  lemma ReachedKeysSnoc(table: map<string, seq<int>>, keys: seq<string>, counts: map<string, nat>)
    requires keys != [] && forall k :: k in keys ==> k in counts
    ensures forall k :: k in keys[..|keys| - 1] ==> k in counts
    ensures (set x | x in keys && Reached(BreakpointsOf(table, x), counts[x]))
      == (set x | x in keys[..|keys| - 1] && Reached(BreakpointsOf(table, x), counts[x]))
        + (if Reached(BreakpointsOf(table, keys[|keys| - 1]), counts[keys[|keys| - 1]]) then {keys[|keys| - 1]} else {})
  {
    var init := keys[..|keys| - 1];
    assert keys == init + [keys[|keys| - 1]];
    assert forall x :: x in init ==> x in keys;
  }

  /** `getActiveOrigins` lists as many entries as there are distinct keys reaching a breakpoint. */
  lemma {:induction false} SelectOriginsSize(table: map<string, seq<int>>, keys: seq<string>, counts: map<string, nat>)
    requires forall k :: k in keys ==> k in counts
    requires Distinct(keys)
    ensures |SelectOrigins(table, keys, counts)| == |set k | k in keys && Reached(BreakpointsOf(table, k), counts[k])|
  {
    if keys != [] {
      var init := keys[..|keys| - 1];
      var k := keys[|keys| - 1];
      assert Distinct(init);
      assert k !in init;
      ReachedKeysSnoc(table, keys, counts);
      SelectOriginsSize(table, init, counts);
      var before := set x | x in init && Reached(BreakpointsOf(table, x), counts[x]);
      assert k !in before;
    }
  }

  lemma {:induction false} SelectTraitsMembers(
    originNames: set<string>, table: map<string, seq<int>>, keys: seq<string>, counts: map<string, nat>)
    requires forall k :: k in keys ==> k in counts
    ensures forall i :: 0 <= i < |SelectTraits(originNames, table, keys, counts)| ==>
      var t := SelectTraits(originNames, table, keys, counts)[i];
      t.name in keys && t.count == counts[t.name]
      && LastReached(BreakpointsOf(table, t.name), t.count) == Some(t.breakpoint)
      && t.isOrigin == (t.name in originNames)
  {
    if keys != [] {
      var init := keys[..|keys| - 1];
      SelectTraitsMembers(originNames, table, init, counts);
    }
  }

  lemma {:induction false} SelectTraitsComplete(
    originNames: set<string>, table: map<string, seq<int>>, keys: seq<string>, counts: map<string, nat>)
    requires forall k :: k in keys ==> k in counts
    ensures forall k :: k in keys && Reached(BreakpointsOf(table, k), counts[k]) ==>
      k in TraitNamesOf(SelectTraits(originNames, table, keys, counts))
  {
    if keys != [] {
      var init := keys[..|keys| - 1];
      var k := keys[|keys| - 1];
      assert keys == init + [k];
      SelectTraitsComplete(originNames, table, init, counts);
      LastReachedExists(BreakpointsOf(table, k), counts[k]);
      var s := SelectTraits(originNames, table, init, counts);
      var all := SelectTraits(originNames, table, keys, counts);
      assert TraitNamesOf(all) == TraitNamesOf(s) + (if |all| > |s| then [k] else []);
    }
  }

  /** The names `getActiveTraits` lists grow by the last key exactly when it reaches a breakpoint. */
  lemma SelectTraitsNamesSnoc(
    originNames: set<string>, table: map<string, seq<int>>, keys: seq<string>, counts: map<string, nat>)
    requires keys != [] && forall k :: k in keys ==> k in counts
    ensures forall k :: k in keys[..|keys| - 1] ==> k in counts
    ensures TraitNamesOf(SelectTraits(originNames, table, keys, counts))
      == TraitNamesOf(SelectTraits(originNames, table, keys[..|keys| - 1], counts))
        + (if LastReached(BreakpointsOf(table, keys[|keys| - 1]), counts[keys[|keys| - 1]]).Some?
           then [keys[|keys| - 1]] else [])
  {
    var init := keys[..|keys| - 1];
    var k := keys[|keys| - 1];
    assert forall x :: x in init ==> x in keys;
    var found := LastReached(BreakpointsOf(table, k), counts[k]);
    var tail := if found.Some? then [ActiveTrait(k, counts[k], found.value, k in originNames)] else [];
    assert SelectTraits(originNames, table, keys, counts) == SelectTraits(originNames, table, init, counts) + tail;
    TraitNamesAppend(SelectTraits(originNames, table, init, counts), tail);
  }


  lemma {:induction false} SelectTraitsDistinct(
    originNames: set<string>, table: map<string, seq<int>>, keys: seq<string>, counts: map<string, nat>)
    requires forall k :: k in keys ==> k in counts
    requires Distinct(keys)
    ensures Distinct(TraitNamesOf(SelectTraits(originNames, table, keys, counts)))
  {
    if keys != [] {
      var init := keys[..|keys| - 1];
      var k := keys[|keys| - 1];
      assert Distinct(init);
      assert k !in init;
      SelectTraitsDistinct(originNames, table, init, counts);
      SelectTraitsMembers(originNames, table, init, counts);
      var names := TraitNamesOf(SelectTraits(originNames, table, init, counts));
      assert k !in names;
      SelectTraitsNamesSnoc(originNames, table, keys, counts);
      DistinctSnoc(names, if LastReached(BreakpointsOf(table, k), counts[k]).Some? then [k] else [], k);
    }
  }

  // ----- what getActiveOrigins and getActiveTraits report -----

  lemma StreamMembership(xs: seq<string>, x: string)
    ensures x in xs <==> multiset(xs)[x] > 0
  {
  }

  /**
   * `getActiveOrigins` lists each name at most once; it lists `x` exactly
   * when `x` has a positive count that reaches one of its breakpoints, and
   * reports that count. Team traits count only when they are origins;
   * every non-empty emblem counts, whether or not it names an origin.
   */
  lemma ActiveOriginsSpec(originNames: set<string>, table: map<string, seq<int>>, team: seq<Champion>, emblems: seq<string>)
    ensures Distinct(OriginNamesOf(ActiveOrigins(originNames, table, team, emblems)))
    ensures forall o :: o in ActiveOrigins(originNames, table, team, emblems) ==>
      o.count == OriginCountOf(originNames, team, emblems, o.name)
      && Reached(BreakpointsOf(table, o.name), o.count)
    ensures forall x :: x in OriginNamesOf(ActiveOrigins(originNames, table, team, emblems)) <==>
      OriginCountOf(originNames, team, emblems, x) > 0
      && Reached(BreakpointsOf(table, x), OriginCountOf(originNames, team, emblems, x))
  {
    var xs := OriginStream(originNames, team, emblems);
    var t := TallyOf(xs);
    var r := ActiveOrigins(originNames, table, team, emblems);
    TallyOfCounts(xs);
    SelectOriginsMembers(table, t.keys, t.counts);
    SelectOriginsComplete(table, t.keys, t.counts);
    SelectOriginsDistinct(table, t.keys, t.counts);
    forall x ensures multiset(xs)[x] == OriginCountOf(originNames, team, emblems, x) {
      OriginStreamCount(originNames, team, emblems, x);
    }
  }

  /**
   * `getActiveTraits` lists each name at most once; it lists `x` exactly when
   * `x` has a positive count that reaches one of its breakpoints; the entry
   * carries that count, the last breakpoint reached, and whether `x` is an
   * origin. Emblems count only for origins.
   */
  lemma ActiveTraitsSpec(originNames: set<string>, table: map<string, seq<int>>, team: seq<Champion>, emblems: seq<string>)
    ensures Distinct(TraitNamesOf(ActiveTraits(originNames, table, team, emblems)))
    ensures forall t :: t in ActiveTraits(originNames, table, team, emblems) ==>
      t.count == TraitCountOf(originNames, team, emblems, t.name)
      && LastReached(BreakpointsOf(table, t.name), t.count) == Some(t.breakpoint)
      && t.isOrigin == (t.name in originNames)
    ensures forall x :: x in TraitNamesOf(ActiveTraits(originNames, table, team, emblems)) <==>
      TraitCountOf(originNames, team, emblems, x) > 0
      && Reached(BreakpointsOf(table, x), TraitCountOf(originNames, team, emblems, x))
  {
    var tally := TallyOf(TraitStream(originNames, team, emblems));
    TallyOfCounts(TraitStream(originNames, team, emblems));
    SelectTraitsDistinct(originNames, table, tally.keys, tally.counts);
    ActiveTraitsEntries(originNames, table, team, emblems);
    ActiveTraitsListing(originNames, table, team, emblems);
  }

  lemma ActiveTraitsEntries(originNames: set<string>, table: map<string, seq<int>>, team: seq<Champion>, emblems: seq<string>)
    ensures forall t :: t in ActiveTraits(originNames, table, team, emblems) ==>
      t.count == TraitCountOf(originNames, team, emblems, t.name)
      && LastReached(BreakpointsOf(table, t.name), t.count) == Some(t.breakpoint)
      && t.isOrigin == (t.name in originNames)
  {
    var tally := TallyOf(TraitStream(originNames, team, emblems));
    var r := ActiveTraits(originNames, table, team, emblems);
    SelectTraitsMembers(originNames, table, tally.keys, tally.counts);
    forall t | t in r
      ensures t.count == TraitCountOf(originNames, team, emblems, t.name)
        && LastReached(BreakpointsOf(table, t.name), t.count) == Some(t.breakpoint)
        && t.isOrigin == (t.name in originNames)
    {
      var i :| 0 <= i < |r| && r[i] == t;
      TraitTallyAt(originNames, team, emblems, t.name);
    }
  }

  lemma ActiveTraitsListing(originNames: set<string>, table: map<string, seq<int>>, team: seq<Champion>, emblems: seq<string>)
    ensures forall x :: x in TraitNamesOf(ActiveTraits(originNames, table, team, emblems)) <==>
      TraitCountOf(originNames, team, emblems, x) > 0
      && Reached(BreakpointsOf(table, x), TraitCountOf(originNames, team, emblems, x))
  {
    var tally := TallyOf(TraitStream(originNames, team, emblems));
    var r := ActiveTraits(originNames, table, team, emblems);
    SelectTraitsMembers(originNames, table, tally.keys, tally.counts);
    SelectTraitsComplete(originNames, table, tally.keys, tally.counts);
    forall x
      ensures x in TraitNamesOf(r) <==>
        TraitCountOf(originNames, team, emblems, x) > 0
        && Reached(BreakpointsOf(table, x), TraitCountOf(originNames, team, emblems, x))
    {
      TraitTallyAt(originNames, team, emblems, x);
      if x in TraitNamesOf(r) {
        var i :| 0 <= i < |r| && TraitNamesOf(r)[i] == x;
        LastReachedExists(BreakpointsOf(table, x), r[i].count);
      }
    }
  }

  /** What the counting object of `getActiveTraits` holds for one name. */
  lemma TraitTallyAt(originNames: set<string>, team: seq<Champion>, emblems: seq<string>, x: string)
    ensures x in TallyOf(TraitStream(originNames, team, emblems)).keys <==> TraitCountOf(originNames, team, emblems, x) > 0
    ensures x in TallyOf(TraitStream(originNames, team, emblems)).counts ==>
      TallyOf(TraitStream(originNames, team, emblems)).counts[x] == TraitCountOf(originNames, team, emblems, x)
  {
    var xs := TraitStream(originNames, team, emblems);
    TallyOfCounts(xs);
    TraitStreamCount(originNames, team, emblems, x);
    StreamMembership(xs, x);
  }

  /** A trait without a breakpoint entry is never listed as active. */
  lemma UnknownTraitNeverActive(originNames: set<string>, table: map<string, seq<int>>, team: seq<Champion>, emblems: seq<string>, x: string)
    requires x !in table
    ensures x !in TraitNamesOf(ActiveTraits(originNames, table, team, emblems))
    ensures x !in OriginNamesOf(ActiveOrigins(originNames, table, team, emblems))
  {
    ActiveTraitsSpec(originNames, table, team, emblems);
    ActiveOriginsSpec(originNames, table, team, emblems);
  }

  /** An emblem that does not name an origin leaves `getActiveTraits` unchanged. */
  lemma NonOriginEmblemIgnoredByTraits(
    originNames: set<string>, table: map<string, seq<int>>, team: seq<Champion>, emblems: seq<string>, e: string)
    requires e !in originNames
    ensures ActiveTraits(originNames, table, team, emblems + [e]) == ActiveTraits(originNames, table, team, emblems)
  {
    assert (emblems + [e])[..|emblems|] == emblems;
    var tail := if e != "" then [e] else [];
    assert Present(emblems + [e]) == Present(emblems) + tail;
    OnlyAppend(Present(emblems), tail, originNames);
    assert Only(tail, originNames) == [] by {
      if tail != [] { assert tail[..0] == []; }
    }
    assert Only(Present(emblems), originNames) + [] == Only(Present(emblems), originNames);
  }

  /**
   * An emblem naming a trait that is not an origin still counts towards
   * `getActiveOrigins`: once that trait reaches a breakpoint it is listed
   * as an active origin.
   */
  lemma NonOriginEmblemCountsAsOrigin(
    originNames: set<string>, table: map<string, seq<int>>, team: seq<Champion>, emblems: seq<string>, e: string)
    requires e != "" && e !in originNames && e in emblems
    requires Reached(BreakpointsOf(table, e), OriginCountOf(originNames, team, emblems, e))
    ensures e in OriginNamesOf(ActiveOrigins(originNames, table, team, emblems))
    ensures e !in TraitNamesOf(ActiveTraits(originNames, table, team, emblems)) || multiset(Occurrences(team))[e] > 0
  {
    PresentKeeps(emblems, e);
    ActiveOriginsSpec(originNames, table, team, emblems);
    ActiveTraitsSpec(originNames, table, team, emblems);
  }

  lemma {:induction false} PresentKeeps(xs: seq<string>, e: string)
    requires e != "" && e in xs
    ensures e in Present(xs)
  {
    var n := |xs| - 1;
    if xs[n] != e {
      assert e in xs[..n];
      PresentKeeps(xs[..n], e);
    }
  }

  // ----- the pre-check -----

  /** The names `getActiveOrigins` lists, as a set. */
  function ActiveOriginSet(originNames: set<string>, table: map<string, seq<int>>, team: seq<Champion>, emblems: seq<string>): set<string> {
    set x | x in OriginStream(originNames, team, emblems)
      && Reached(BreakpointsOf(table, x), OriginCountOf(originNames, team, emblems, x))
  }

  lemma ActiveOriginsSize(originNames: set<string>, table: map<string, seq<int>>, team: seq<Champion>, emblems: seq<string>)
    ensures |ActiveOrigins(originNames, table, team, emblems)| == |ActiveOriginSet(originNames, table, team, emblems)|
  {
    var xs := OriginStream(originNames, team, emblems);
    var t := TallyOf(xs);
    TallyOfCounts(xs);
    SelectOriginsSize(table, t.keys, t.counts);
    forall x | x in t.keys ensures t.counts[x] == OriginCountOf(originNames, team, emblems, x) {
      OriginStreamCount(originNames, team, emblems, x);
    }
    assert (set k | k in t.keys && Reached(BreakpointsOf(table, k), t.counts[k]))
      == ActiveOriginSet(originNames, table, team, emblems);
  }

  lemma ActiveOriginSetMember(originNames: set<string>, table: map<string, seq<int>>, team: seq<Champion>, emblems: seq<string>, x: string)
    ensures x in ActiveOriginSet(originNames, table, team, emblems) <==>
      OriginCountOf(originNames, team, emblems, x) > 0
      && Reached(BreakpointsOf(table, x), OriginCountOf(originNames, team, emblems, x))
  {
    OriginStreamCount(originNames, team, emblems, x);
    StreamMembership(OriginStream(originNames, team, emblems), x);
  }

  lemma AnchorKeepsOtherCounts(originNames: set<string>, base: seq<Champion>, anchor: Champion, emblems: seq<string>, x: string)
    requires anchor.traits == [AnchorTrait] && x != AnchorTrait
    ensures OriginCountOf(originNames, base + [anchor], emblems, x) == OriginCountOf(originNames, base, emblems, x)
  {
    OccurrencesAppend(base, anchor);
    assert multiset(Occurrences(base + [anchor])) == multiset(Occurrences(base)) + multiset{AnchorTrait};
  }

  /**
   * Appending an anchor unit (whose only trait is the anchor trait) raises
   * the number of active origins by at most one.
   */
  lemma AnchorAddsAtMostOneOrigin(
    originNames: set<string>, table: map<string, seq<int>>, base: seq<Champion>, anchor: Champion, emblems: seq<string>)
    requires anchor.traits == [AnchorTrait]
    ensures |ActiveOrigins(originNames, table, base + [anchor], emblems)|
      <= |ActiveOrigins(originNames, table, base, emblems)| + 1
  {
    var team := base + [anchor];
    ActiveOriginsSize(originNames, table, base, emblems);
    ActiveOriginsSize(originNames, table, team, emblems);
    var before := ActiveOriginSet(originNames, table, base, emblems);
    var after := ActiveOriginSet(originNames, table, team, emblems);
    forall x | x in after && x != AnchorTrait ensures x in before {
      ActiveOriginSetMember(originNames, table, team, emblems, x);
      ActiveOriginSetMember(originNames, table, base, emblems, x);
      AnchorKeepsOtherCounts(originNames, base, anchor, emblems, x);
    }
    SubsetOfOneMore(after, before, AnchorTrait);
  }

  lemma SubsetOfOneMore(small: set<string>, big: set<string>, extra: string)
    requires forall x :: x in small && x != extra ==> x in big
    ensures |small| <= |big| + 1
  {
    SubsetCardinality(small, big + {extra});
    assert |big + {extra}| <= |big| + 1;
  }
}
