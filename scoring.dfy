/**
 * The quantities `scoreTeam` and `solve` derive from a team: tank count,
 * effective cost, trait tallies, and the exact (real-valued) score before
 * `Math.round`.
 */
module Scoring {
  import opened Collections
  import opened Catalog
  import opened Traits

  /** `team.filter(c => c.isTank).length` */
  function TankCount(team: seq<Champion>): (n: nat)
    ensures n <= |team|
  {
    if team == [] then 0 else (if team[0].isTank then 1 else 0) + TankCount(team[1..])
  }

  /** The catalog cost of the team. */
  function RawCost(team: seq<Champion>): int {
    if team == [] then 0 else team[0].cost + RawCost(team[1..])
  }

  /**
   * `team.reduce((sum, c) => sum + (selectedFourCosts.has(c.name) ? 0 : c.cost), 0)`:
   * a unit whose name was selected is already owned and costs nothing.
   */
  function EffectiveCost(team: seq<Champion>, selected: set<string>): int {
    if team == [] then 0
    else (if team[0].name in selected then 0 else team[0].cost) + EffectiveCost(team[1..], selected)
  }

  /** The effective cost is the catalog cost of the units that were not selected. */
  lemma {:induction false} EffectiveCostIgnoresSelected(team: seq<Champion>, selected: set<string>)
    ensures EffectiveCost(team, selected) == RawCost(Filter(team, (c: Champion) => c.name !in selected))
  {
    if team != [] {
      var p := (c: Champion) => c.name !in selected;
      EffectiveCostIgnoresSelected(team[1..], selected);
      var head := if p(team[0]) then [team[0]] else [];
      RawCostAppend(head, Filter(team[1..], p));
    }
  }

  lemma {:induction false} RawCostAppend(a: seq<Champion>, b: seq<Champion>)
    ensures RawCost(a + b) == RawCost(a) + RawCost(b)
  {
    if a == [] {
      assert a + b == b;
    } else {
      assert (a + b)[1..] == a[1..] + b;
      RawCostAppend(a[1..], b);
    }
  }

  /** Adding an owned unit to a team leaves its effective cost unchanged. */
  lemma {:induction false} SelectedUnitIsFree(team: seq<Champion>, c: Champion, selected: set<string>)
    requires c.name in selected
    ensures EffectiveCost(team + [c], selected) == EffectiveCost(team, selected)
  {
    if team == [] {
      assert [c][1..] == [];
    } else {
      assert (team + [c])[1..] == team[1..] + [c];
      SelectedUnitIsFree(team[1..], c, selected);
    }
  }

  /** `traits.filter(t => t.isOrigin).length` */
  function OriginTraitCount(traits: seq<ActiveTrait>): nat {
    if traits == [] then 0 else (if traits[0].isOrigin then 1 else 0) + OriginTraitCount(traits[1..])
  }

  /** `traits.filter(t => !t.isOrigin).length` */
  function ClassTraitCount(traits: seq<ActiveTrait>): nat {
    if traits == [] then 0 else (if traits[0].isOrigin then 0 else 1) + ClassTraitCount(traits[1..])
  }

  /** Every active trait is counted once, as an origin or as a class. */
  lemma {:induction false} OriginsAndClassesPartition(traits: seq<ActiveTrait>)
    ensures OriginTraitCount(traits) + ClassTraitCount(traits) == |traits|
  {
    if traits != [] { OriginsAndClassesPartition(traits[1..]); }
  }

  /** The number of breakpoints met, summed over the active traits. */
  function TotalBreakpoints(table: map<string, seq<int>>, traits: seq<ActiveTrait>): nat {
    if traits == [] then 0
    else MetCount(BreakpointsOf(table, traits[0].name), traits[0].count) + TotalBreakpoints(table, traits[1..])
  }

  /** Every active trait contributes at least one met breakpoint to the total. */
  lemma {:induction false} TotalBreakpointsAtLeastActive(
    originNames: set<string>, table: map<string, seq<int>>, team: seq<Champion>, emblems: seq<string>)
    ensures TotalBreakpoints(table, ActiveTraits(originNames, table, team, emblems))
      >= |ActiveTraits(originNames, table, team, emblems)|
  {
    var ts := ActiveTraits(originNames, table, team, emblems);
    ActiveTraitsSpec(originNames, table, team, emblems);
    forall i | 0 <= i < |ts| ensures MetCount(BreakpointsOf(table, ts[i].name), ts[i].count) > 0 {
      assert ts[i] in ts;
      LastReachedExists(BreakpointsOf(table, ts[i].name), ts[i].count);
      MetCountIsTier(BreakpointsOf(table, ts[i].name), ts[i].count);
    }
    TotalAtLeastLength(table, ts);
  }

  lemma {:induction false} TotalAtLeastLength(table: map<string, seq<int>>, ts: seq<ActiveTrait>)
    requires forall i :: 0 <= i < |ts| ==> MetCount(BreakpointsOf(table, ts[i].name), ts[i].count) > 0
    ensures TotalBreakpoints(table, ts) >= |ts|
  {
    if ts != [] {
      assert MetCount(BreakpointsOf(table, ts[0].name), ts[0].count) > 0;
      TotalAtLeastLength(table, ts[1..]);
    }
  }

  /** `Math.round` on an exact value: the nearest integer, halves going up. */
  function JsRound(x: real): int {
    (x + 0.5).Floor
  }

  function RealAbs(x: real): real {
    if x < 0.0 then -x else x
  }

  /** Half a point per percentage point between the team's tank share and the target. */
  function BalancePenalty(tanks: nat, n: nat, tankPercentage: int): real
    requires n > 0
  {
    var actualTankPercentage := (tanks as real / n as real) * 100.0;
    RealAbs(actualTankPercentage - tankPercentage as real) * 0.5
  }

  /**
   * The score as the formula reads before rounding, over exact reals:
   * 20 per active origin, 15 per active class, 10 per breakpoint met, minus
   * half a point per percentage point of tank-ratio deviation, minus twice
   * the effective cost.
   */
  function ExactScore(
    originNames: set<string>, table: map<string, seq<int>>, selected: set<string>,
    team: seq<Champion>, emblems: seq<string>, tankPercentage: int): real
    requires |team| > 0
  {
    var traits := ActiveTraits(originNames, table, team, emblems);
    var balancePenalty := BalancePenalty(TankCount(team), |team|, tankPercentage);
    (OriginTraitCount(traits) * 20) as real
      + (ClassTraitCount(traits) * 15) as real
      + (TotalBreakpoints(table, traits) * 10) as real
      - balancePenalty
      - (EffectiveCost(team, selected) * 2) as real
  }

  /**
   * The integer terms of the score: 20 per active origin, 15 per active
   * class, 10 per breakpoint met, minus twice the effective cost.
   */
  function IntegerPart(
    originNames: set<string>, table: map<string, seq<int>>, selected: set<string>,
    team: seq<Champion>, emblems: seq<string>): int
  {
    var traits := ActiveTraits(originNames, table, team, emblems);
    OriginTraitCount(traits) * 20 + ClassTraitCount(traits) * 15
      + TotalBreakpoints(table, traits) * 10 - EffectiveCost(team, selected) * 2
  }

  /** The exact score is the integer part minus half the tank-ratio deviation. */
  lemma ExactScoreSplit(
    originNames: set<string>, table: map<string, seq<int>>, selected: set<string>,
    team: seq<Champion>, emblems: seq<string>, tankPercentage: int)
    requires |team| > 0
    ensures ExactScore(originNames, table, selected, team, emblems, tankPercentage)
      == IntegerPart(originNames, table, selected, team, emblems) as real
        - BalancePenalty(TankCount(team), |team|, tankPercentage)
  {
    var traits := ActiveTraits(originNames, table, team, emblems);
    var o := OriginTraitCount(traits) * 20;
    var c := ClassTraitCount(traits) * 15;
    var b := TotalBreakpoints(table, traits) * 10;
    var cost := EffectiveCost(team, selected) * 2;
    var penalty := BalancePenalty(TankCount(team), |team|, tankPercentage);
    assert IntegerPart(originNames, table, selected, team, emblems) == o + c + b - cost;
    assert o as real + c as real + b as real - penalty - cost as real == (o + c + b - cost) as real - penalty;
  }

  lemma UnitIntervalFromProduct(z: real, mr: real, r: real)
    requires mr > 0.0 && z * mr == r && 0.0 <= r < mr
    ensures 0.0 <= z < 1.0
  {
  }

  /** A real whose product with a positive `m` is the integer `num` has floor `num / m`. */
  lemma FloorFromProduct(y: real, num: int, m: int)
    requires m > 0 && y * m as real == num as real
    ensures y.Floor == num / m
  {
    var q := num / m;
    var r := num % m;
    assert num == m * q + r && 0 <= r < m;
    var mr := m as real;
    assert (m * q) as real == mr * q as real;
    var z := y - q as real;
    assert z * mr == r as real;
    UnitIntervalFromProduct(z, mr, r as real);
  }

  lemma DeviationAsQuotient(tanks: real, nr: real, p: real)
    requires nr > 0.0
    ensures (tanks / nr) * 100.0 - p == (100.0 * tanks - p * nr) / nr
  {
  }

  lemma AbsOfQuotient(a: real, m: real)
    requires m > 0.0
    ensures RealAbs(a / m) == RealAbs(a) / m
  {
    if a < 0.0 {
      assert a / m < 0.0;
      assert -(a / m) == (-a) / m;
    } else {
      assert a / m >= 0.0;
    }
  }

  lemma HalfTimesQuotient(whole: real, d: real, nr: real)
    requires nr > 0.0
    ensures (whole - (d / nr) * 0.5 + 0.5) * (2.0 * nr) == 2.0 * nr * whole - d + nr
  {
    assert (d / nr) * nr == d;
  }

  /**
   * With an integer part `whole`, `tanks` tanks among `n` units and an
   * integer target `p`, rounding `whole - |100 tanks / n - p| / 2` the way
   * `Math.round` does equals an integer division.
   */
  lemma RoundingInIntegers(whole: int, tanks: nat, n: nat, p: int)
    requires n > 0
    ensures JsRound(whole as real - BalancePenalty(tanks, n, p))
      == (2 * n * whole - Abs(100 * tanks - p * n) + n) / (2 * n)
  {
    var d := Abs(100 * tanks - p * n);
    var nr := n as real;
    DeviationAsQuotient(tanks as real, nr, p as real);
    assert (100.0 * tanks as real - p as real * nr) == (100 * tanks - p * n) as real;
    AbsOfQuotient((100 * tanks - p * n) as real, nr);
    assert RealAbs((100 * tanks - p * n) as real) == d as real;
    HalfTimesQuotient(whole as real, d as real, nr);
    var num := 2 * n * whole - d + n;
    assert num as real == 2.0 * nr * whole as real - d as real + nr;
    assert (2 * n) as real == 2.0 * nr;
    FloorFromProduct(whole as real - RealAbs((tanks as real / nr) * 100.0 - p as real) * 0.5 + 0.5, num, 2 * n);
  }
}
