/**
 * What `solve` computes, as functions on values: the champion pool, its
 * split into anchor units and the rest, and the list of accepted teams in
 * the order the nested loops discover them. The lemmas characterise the
 * accepted teams without reference to the loop structure.
 */
module Search {
  import opened Collections
  import opened Catalog
  import opened Combinations
  import opened Traits
  import opened Scoring
  import opened Ranking

  /** The smallest and largest base sizes tried. */
  const MinBaseSize: nat := 3
  const MaxBaseSize: nat := 5

  /** The number of active origins a complete team needs. */
  const RequiredOrigins: nat := 4

  /** The fixed inputs of one search: the lookup tables and the call's preferences. */
  datatype Context = Context(
    originNames: set<string>,
    table: map<string, seq<int>>,
    selected: set<string>,
    emblems: seq<string>,
    tankPercentage: int)

  /** The arguments of one `solve` call, with the defaults of `preferences` already applied. */
  datatype Request = Request(
    emblems: seq<string>,
    selectedFourCosts: seq<string>,
    tankPercentage: int,
    blacklistedChampions: seq<string>)

  /** The `preferences` object of `solve`: each property may be absent. */
  datatype Preferences = Preferences(tankPercentage: Option<int>, blacklistedChampions: Option<seq<string>>)

  /** The target tank percentage when `preferences` names none. */
  const DefaultTankPercentage: int := 60

  /** The destructuring at the top of `solve`: an absent property takes its default. */
  function RequestOf(emblems: seq<string>, selectedFourCosts: seq<string>, preferences: Preferences): (req: Request)
    ensures req.emblems == emblems && req.selectedFourCosts == selectedFourCosts
    ensures preferences.tankPercentage == None ==> req.tankPercentage == DefaultTankPercentage
    ensures preferences.tankPercentage == Some(req.tankPercentage) || preferences.tankPercentage == None
    ensures preferences.blacklistedChampions == None ==> req.blacklistedChampions == []
    ensures preferences.blacklistedChampions == Some(req.blacklistedChampions) || preferences.blacklistedChampions == None
  {
    Request(
      emblems, selectedFourCosts,
      if preferences.tankPercentage.Some? then preferences.tankPercentage.value else DefaultTankPercentage,
      if preferences.blacklistedChampions.Some? then preferences.blacklistedChampions.value else [])
  }

  /** `new Set(selectedFourCosts)` */
  function SelectedSet(req: Request): (names: set<string>)
    ensures forall n :: n in names <==> n in req.selectedFourCosts
  {
    set n | n in req.selectedFourCosts
  }

  function ContextOf(originNames: set<string>, table: map<string, seq<int>>, req: Request): Context {
    Context(originNames, table, SelectedSet(req), req.emblems, req.tankPercentage)
  }

  /** A unit whose only trait is the anchor trait. */
  predicate IsAnchor(c: Champion) {
    |c.traits| == 1 && c.traits[0] == AnchorTrait
  }

  function IsOther(c: Champion): bool {
    !IsAnchor(c)
  }

  /** `c => names.includes(c.name)` */
  function NameIn(names: seq<string>): Champion -> bool {
    (c: Champion) => c.name in names
  }

  /** `c => !names.includes(c.name)` */
  function NameNotIn(names: seq<string>): Champion -> bool {
    (c: Champion) => c.name !in names
  }

  function FourCostPool(fourCost: seq<Champion>, selected: seq<string>): seq<Champion> {
    Filter(fourCost, NameIn(selected))
  }

  /** The base units and the selected four-costs, without the blacklisted names. */
  function Pool(champions: seq<Champion>, fourCost: seq<Champion>, req: Request): seq<Champion> {
    Filter(champions + FourCostPool(fourCost, req.selectedFourCosts), NameNotIn(req.blacklistedChampions))
  }

  function Anchors(pool: seq<Champion>): seq<Champion> {
    Filter(pool, IsAnchor)
  }

  function Others(pool: seq<Champion>): seq<Champion> {
    Filter(pool, IsOther)
  }

  /**
   * A unit is in the pool exactly when its name is not blacklisted and it
   * is a base unit or a four-cost whose name was selected.
   */
  lemma PoolMembers(champions: seq<Champion>, fourCost: seq<Champion>, req: Request, c: Champion)
    ensures c in Pool(champions, fourCost, req) <==>
      c.name !in req.blacklistedChampions
      && (c in champions || (c in fourCost && c.name in req.selectedFourCosts))
  {
    var four := FourCostPool(fourCost, req.selectedFourCosts);
    FilterMembers(champions + four, NameNotIn(req.blacklistedChampions), c);
    FilterMembers(fourCost, NameIn(req.selectedFourCosts), c);
  }

  /** The pool splits into its anchor units and the rest, with nothing lost or duplicated. */
  lemma PartitionExact(pool: seq<Champion>)
    ensures forall c :: c in Anchors(pool) <==> c in pool && IsAnchor(c)
    ensures forall c :: c in Others(pool) <==> c in pool && !IsAnchor(c)
    ensures multiset(Anchors(pool)) + multiset(Others(pool)) == multiset(pool)
  {
    FilterPartition(pool, IsAnchor, IsOther);
    forall c ensures c in Anchors(pool) <==> c in pool && IsAnchor(c) {
      FilterMembers(pool, IsAnchor, c);
    }
    forall c ensures c in Others(pool) <==> c in pool && !IsAnchor(c) {
      FilterMembers(pool, IsOther, c);
    }
  }

  /** The pre-check at the top of the base loop. */
  predicate BaseAdmitted(ctx: Context, base: seq<Champion>) {
    |ActiveOrigins(ctx.originNames, ctx.table, base, ctx.emblems)| >= Max0(3 - |ctx.emblems|)
  }

  /** The acceptance test on a complete team. */
  predicate Accepted(ctx: Context, team: seq<Champion>) {
    |ActiveOrigins(ctx.originNames, ctx.table, team, ctx.emblems)| >= RequiredOrigins
  }

  /** The record pushed for an accepted team. */
  function MakeResult(ctx: Context, team: seq<Champion>): (r: TeamResult)
    requires |team| > 0
    ensures r.champions == team && r.size == |team|
    ensures r.tankCount <= r.size && r.carryCount == r.size - r.tankCount
  {
    var tankCount := TankCount(team);
    TeamResult(
      team,
      JsRound(ExactScore(ctx.originNames, ctx.table, ctx.selected, team, ctx.emblems, ctx.tankPercentage)),
      |team|,
      tankCount,
      |team| - tankCount,
      EffectiveCost(team, ctx.selected),
      ActiveTraits(ctx.originNames, ctx.table, team, ctx.emblems))
  }

  /** One iteration of the anchor loop: the record of `base` extended by `anchor`, if accepted. */
  function AnchorStep(ctx: Context, base: seq<Champion>): Champion -> seq<TeamResult> {
    (anchor: Champion) =>
      var team := base + [anchor];
      if Accepted(ctx, team) then [MakeResult(ctx, team)] else []
  }

  /** The anchor loop: `base` extended by each anchor unit in turn. */
  function AnchorTeams(ctx: Context, base: seq<Champion>, anchors: seq<Champion>): seq<TeamResult> {
    ConcatMap(AnchorStep(ctx, base), anchors)
  }

  /** One iteration of the base loop: nothing when the pre-check fails. */
  function BaseStep(ctx: Context, anchors: seq<Champion>): seq<Champion> -> seq<TeamResult> {
    (base: seq<Champion>) => if BaseAdmitted(ctx, base) then AnchorTeams(ctx, base, anchors) else []
  }

  /** The base loop over a list of combinations. */
  function BaseTeams(ctx: Context, bases: seq<seq<Champion>>, anchors: seq<Champion>): seq<TeamResult> {
    ConcatMap(BaseStep(ctx, anchors), bases)
  }

  /** One iteration of the size loop. */
  function SizeStep(ctx: Context, others: seq<Champion>, anchors: seq<Champion>): nat -> seq<TeamResult> {
    (size: nat) => BaseTeams(ctx, Combos(others, size), anchors)
  }

  /** The base sizes, in the order the size loop tries them. */
  const BaseSizes: seq<nat> := [3, 4, 5]

  /** `validTeams` before the sort. */
  function ValidTeams(ctx: Context, others: seq<Champion>, anchors: seq<Champion>): seq<TeamResult> {
    ConcatMap(SizeStep(ctx, others, anchors), BaseSizes)
  }

  /** The list `solve` returns. */
  function Solution(
    champions: seq<Champion>, fourCost: seq<Champion>,
    originNames: set<string>, table: map<string, seq<int>>, req: Request): seq<TeamResult>
  {
    var pool := Pool(champions, fourCost, req);
    SortTeams(ValidTeams(ContextOf(originNames, table, req), Others(pool), Anchors(pool)))
  }

  // ----- one iteration of each loop -----

  lemma AnchorTeamsPrefix(ctx: Context, base: seq<Champion>, anchors: seq<Champion>, t: nat)
    requires t < |anchors|
    ensures AnchorTeams(ctx, base, anchors[..t + 1])
      == AnchorTeams(ctx, base, anchors[..t])
        + (if Accepted(ctx, base + [anchors[t]]) then [MakeResult(ctx, base + [anchors[t]])] else [])
  {
    assert anchors[..t + 1] == anchors[..t] + [anchors[t]];
    ConcatMapStep(AnchorStep(ctx, base), anchors[..t], anchors[t]);
  }

  lemma BaseTeamsPrefix(ctx: Context, bases: seq<seq<Champion>>, anchors: seq<Champion>, b: nat)
    requires b < |bases|
    ensures BaseTeams(ctx, bases[..b + 1], anchors)
      == BaseTeams(ctx, bases[..b], anchors)
        + (if BaseAdmitted(ctx, bases[b]) then AnchorTeams(ctx, bases[b], anchors) else [])
  {
    assert bases[..b + 1] == bases[..b] + [bases[b]];
    ConcatMapStep(BaseStep(ctx, anchors), bases[..b], bases[b]);
  }

  lemma ValidTeamsSnoc(ctx: Context, others: seq<Champion>, anchors: seq<Champion>, k: nat)
    requires k < |BaseSizes|
    ensures ConcatMap(SizeStep(ctx, others, anchors), BaseSizes[..k + 1])
      == ConcatMap(SizeStep(ctx, others, anchors), BaseSizes[..k]) + BaseTeams(ctx, Combos(others, MinBaseSize + k), anchors)
  {
    var size: nat := MinBaseSize + k;
    assert BaseSizes[..k + 1] == BaseSizes[..k] + [size];
    ConcatMapStep(SizeStep(ctx, others, anchors), BaseSizes[..k], size);
  }

  // ----- the pre-check is sound -----

  /** `r` is the record pushed for `base` extended by `anchor`. */
  predicate Yields(ctx: Context, base: seq<Champion>, anchor: Champion, r: TeamResult) {
    Accepted(ctx, base + [anchor]) && r == MakeResult(ctx, base + [anchor])
  }

  lemma YieldsStep(ctx: Context, base: seq<Champion>, anchor: Champion, r: TeamResult)
    ensures r in AnchorStep(ctx, base)(anchor) <==> Yields(ctx, base, anchor, r)
  {
  }

  lemma {:induction false} PrunedBaseYieldsNothing(ctx: Context, base: seq<Champion>, anchors: seq<Champion>)
    requires forall i :: 0 <= i < |anchors| ==> IsAnchor(anchors[i])
    requires !BaseAdmitted(ctx, base)
    ensures AnchorTeams(ctx, base, anchors) == []
  {
    if anchors != [] {
      var n := |anchors| - 1;
      var a := anchors[n];
      assert a.traits == [AnchorTrait];
      AnchorAddsAtMostOneOrigin(ctx.originNames, ctx.table, base, a, ctx.emblems);
      assert !Accepted(ctx, base + [a]);
      PrunedBaseYieldsNothing(ctx, base, anchors[..n]);
    }
  }

  /**
   * The pre-check never discards a team the acceptance test would keep:
   * every anchor unit adds at most one active origin, and the threshold
   * `max(3 - |emblems|, 0)` is at most 3.
   */
  lemma PreCheckSound(ctx: Context, base: seq<Champion>, anchors: seq<Champion>)
    requires forall i :: 0 <= i < |anchors| ==> IsAnchor(anchors[i])
    ensures BaseStep(ctx, anchors)(base) == AnchorTeams(ctx, base, anchors)
  {
    if !BaseAdmitted(ctx, base) {
      PrunedBaseYieldsNothing(ctx, base, anchors);
    }
  }

  // ----- what the accepted teams are -----

  /** `r` is the record of a 3-, 4- or 5-combination of `others` extended by a unit of `anchors`. */
  predicate Assembled(ctx: Context, others: seq<Champion>, anchors: seq<Champion>, r: TeamResult) {
    exists size: nat, base, anchor ::
      MinBaseSize <= size <= MaxBaseSize && base in Combos(others, size) && anchor in anchors
      && Yields(ctx, base, anchor, r)
  }

  lemma FromAnchorTeams(ctx: Context, base: seq<Champion>, anchors: seq<Champion>, r: TeamResult)
    requires r in AnchorTeams(ctx, base, anchors)
    ensures exists anchor :: anchor in anchors && Yields(ctx, base, anchor, r)
  {
    ConcatMapSound(AnchorStep(ctx, base), anchors, r);
    var i :| 0 <= i < |anchors| && r in AnchorStep(ctx, base)(anchors[i]);
    YieldsStep(ctx, base, anchors[i], r);
  }

  lemma FromBaseTeams(ctx: Context, bases: seq<seq<Champion>>, anchors: seq<Champion>, r: TeamResult)
    requires forall i :: 0 <= i < |anchors| ==> IsAnchor(anchors[i])
    requires r in BaseTeams(ctx, bases, anchors)
    ensures exists base :: base in bases && r in AnchorTeams(ctx, base, anchors)
  {
    ConcatMapSound(BaseStep(ctx, anchors), bases, r);
    var j :| 0 <= j < |bases| && r in BaseStep(ctx, anchors)(bases[j]);
    PreCheckSound(ctx, bases[j], anchors);
  }

  /** The size loop visits exactly the sizes 3 to 5. */
  lemma InBaseSizes<B>(f: nat -> seq<B>, y: B)
    ensures y in ConcatMap(f, BaseSizes) <==> exists size: nat :: MinBaseSize <= size <= MaxBaseSize && y in f(size)
  {
    if y in ConcatMap(f, BaseSizes) {
      ConcatMapSound(f, BaseSizes, y);
      var s :| 0 <= s < |BaseSizes| && y in f(BaseSizes[s]);
      assert MinBaseSize <= BaseSizes[s] <= MaxBaseSize;
    }
    if exists size: nat :: MinBaseSize <= size <= MaxBaseSize && y in f(size) {
      var size: nat :| MinBaseSize <= size <= MaxBaseSize && y in f(size);
      var s: nat := size - MinBaseSize;
      assert BaseSizes[s] == size;
      ConcatMapComplete(f, BaseSizes, s, y);
    }
  }

  lemma FromValidTeams(ctx: Context, others: seq<Champion>, anchors: seq<Champion>, r: TeamResult)
    requires r in ValidTeams(ctx, others, anchors)
    ensures exists size: nat :: MinBaseSize <= size <= MaxBaseSize && r in BaseTeams(ctx, Combos(others, size), anchors)
  {
    var f := SizeStep(ctx, others, anchors);
    InBaseSizes(f, r);
    var size: nat :| MinBaseSize <= size <= MaxBaseSize && r in f(size);
    assert f(size) == BaseTeams(ctx, Combos(others, size), anchors);
  }

  lemma IntoAnchorTeams(ctx: Context, base: seq<Champion>, anchors: seq<Champion>, anchor: Champion, r: TeamResult)
    requires anchor in anchors && Yields(ctx, base, anchor, r)
    ensures r in AnchorTeams(ctx, base, anchors)
  {
    var i :| 0 <= i < |anchors| && anchors[i] == anchor;
    YieldsStep(ctx, base, anchor, r);
    ConcatMapComplete(AnchorStep(ctx, base), anchors, i, r);
  }

  lemma IntoBaseTeams(ctx: Context, bases: seq<seq<Champion>>, anchors: seq<Champion>, base: seq<Champion>, r: TeamResult)
    requires forall i :: 0 <= i < |anchors| ==> IsAnchor(anchors[i])
    requires base in bases && r in AnchorTeams(ctx, base, anchors)
    ensures r in BaseTeams(ctx, bases, anchors)
  {
    var j :| 0 <= j < |bases| && bases[j] == base;
    PreCheckSound(ctx, base, anchors);
    ConcatMapComplete(BaseStep(ctx, anchors), bases, j, r);
  }

  lemma IntoValidTeams(ctx: Context, others: seq<Champion>, anchors: seq<Champion>, size: nat, r: TeamResult)
    requires MinBaseSize <= size <= MaxBaseSize && r in BaseTeams(ctx, Combos(others, size), anchors)
    ensures r in ValidTeams(ctx, others, anchors)
  {
    var f := SizeStep(ctx, others, anchors);
    assert r in f(size);
    InBaseSizes(f, r);
  }

  lemma AssembledSound(ctx: Context, others: seq<Champion>, anchors: seq<Champion>, r: TeamResult)
    requires forall i :: 0 <= i < |anchors| ==> IsAnchor(anchors[i])
    requires r in ValidTeams(ctx, others, anchors)
    ensures Assembled(ctx, others, anchors, r)
  {
    FromValidTeams(ctx, others, anchors, r);
    var size: nat :| MinBaseSize <= size <= MaxBaseSize && r in BaseTeams(ctx, Combos(others, size), anchors);
    FromBaseTeams(ctx, Combos(others, size), anchors, r);
    var base :| base in Combos(others, size) && r in AnchorTeams(ctx, base, anchors);
    FromAnchorTeams(ctx, base, anchors, r);
  }

  lemma AssembledComplete(ctx: Context, others: seq<Champion>, anchors: seq<Champion>, r: TeamResult)
    requires forall i :: 0 <= i < |anchors| ==> IsAnchor(anchors[i])
    requires Assembled(ctx, others, anchors, r)
    ensures r in ValidTeams(ctx, others, anchors)
  {
    var size: nat, base, anchor :|
      MinBaseSize <= size <= MaxBaseSize && base in Combos(others, size) && anchor in anchors
      && Yields(ctx, base, anchor, r);
    IntoAnchorTeams(ctx, base, anchors, anchor, r);
    IntoBaseTeams(ctx, Combos(others, size), anchors, base, r);
    IntoValidTeams(ctx, others, anchors, size, r);
  }

  /**
   * A record is accepted exactly when it is the record of some 3-, 4- or
   * 5-combination of the non-anchor units extended by one anchor unit,
   * and that team activates at least four origins. The pre-check plays no
   * part in this characterisation.
   */
  lemma ValidTeamsMembers(ctx: Context, others: seq<Champion>, anchors: seq<Champion>, r: TeamResult)
    requires forall i :: 0 <= i < |anchors| ==> IsAnchor(anchors[i])
    ensures r in ValidTeams(ctx, others, anchors) <==> Assembled(ctx, others, anchors, r)
  {
    if r in ValidTeams(ctx, others, anchors) {
      AssembledSound(ctx, others, anchors, r);
    }
    if Assembled(ctx, others, anchors, r) {
      AssembledComplete(ctx, others, anchors, r);
    }
  }

  // ----- what `solve` returns -----

  lemma AnchorsAreAnchors(pool: seq<Champion>)
    ensures forall i :: 0 <= i < |Anchors(pool)| ==> IsAnchor(Anchors(pool)[i])
  {
    forall i | 0 <= i < |Anchors(pool)| ensures IsAnchor(Anchors(pool)[i]) {
      assert Anchors(pool)[i] in Anchors(pool);
      FilterMembers(pool, IsAnchor, Anchors(pool)[i]);
    }
  }

  /**
   * The returned list is ordered by the comparator and is a permutation of
   * the accepted records in discovery order.
   */
  lemma SolutionIsSortedPermutation(
    champions: seq<Champion>, fourCost: seq<Champion>,
    originNames: set<string>, table: map<string, seq<int>>, req: Request)
    ensures Sorted(Solution(champions, fourCost, originNames, table, req))
    ensures multiset(Solution(champions, fourCost, originNames, table, req))
      == multiset(ValidTeams(ContextOf(originNames, table, req),
                             Others(Pool(champions, fourCost, req)), Anchors(Pool(champions, fourCost, req))))
  {
    var pool := Pool(champions, fourCost, req);
    SortTeamsCorrect(ValidTeams(ContextOf(originNames, table, req), Others(pool), Anchors(pool)));
  }

  /** A record is returned exactly when it is assembled from the pool as the loops describe. */
  lemma SolutionMembers(
    champions: seq<Champion>, fourCost: seq<Champion>,
    originNames: set<string>, table: map<string, seq<int>>, req: Request, r: TeamResult)
    ensures r in Solution(champions, fourCost, originNames, table, req) <==>
      Assembled(ContextOf(originNames, table, req), Others(Pool(champions, fourCost, req)), Anchors(Pool(champions, fourCost, req)), r)
  {
    var pool := Pool(champions, fourCost, req);
    var ctx := ContextOf(originNames, table, req);
    var valid := ValidTeams(ctx, Others(pool), Anchors(pool));
    SortTeamsCorrect(valid);
    assert r in SortTeams(valid) <==> r in multiset(SortTeams(valid));
    assert r in valid <==> r in multiset(valid);
    AnchorsAreAnchors(pool);
    ValidTeamsMembers(ctx, Others(pool), Anchors(pool), r);
  }

  /** The base and the anchor unit a returned record was assembled from. */
  lemma SolutionTeam(
    champions: seq<Champion>, fourCost: seq<Champion>,
    originNames: set<string>, table: map<string, seq<int>>, req: Request, r: TeamResult)
    returns (size: nat, base: seq<Champion>, anchor: Champion)
    requires r in Solution(champions, fourCost, originNames, table, req)
    ensures MinBaseSize <= size <= MaxBaseSize && base in Combos(Others(Pool(champions, fourCost, req)), size)
    ensures anchor in Anchors(Pool(champions, fourCost, req))
    ensures Yields(ContextOf(originNames, table, req), base, anchor, r)
  {
    SolutionMembers(champions, fourCost, originNames, table, req, r);
    size, base, anchor :| MinBaseSize <= size <= MaxBaseSize
      && base in Combos(Others(Pool(champions, fourCost, req)), size) && anchor in Anchors(Pool(champions, fourCost, req))
      && Yields(ContextOf(originNames, table, req), base, anchor, r);
  }

  /** What a record built for a team holds. */
  lemma YieldsRecord(ctx: Context, base: seq<Champion>, anchor: Champion, r: TeamResult)
    requires Yields(ctx, base, anchor, r)
    ensures r.champions == base + [anchor] && r.size == |base| + 1
    ensures r.tankCount == TankCount(r.champions) && r.carryCount == r.size - r.tankCount
    ensures |ActiveOrigins(ctx.originNames, ctx.table, r.champions, ctx.emblems)| >= RequiredOrigins
    ensures r.traits == ActiveTraits(ctx.originNames, ctx.table, r.champions, ctx.emblems)
    ensures r.totalCost == EffectiveCost(r.champions, ctx.selected)
    ensures r.score == JsRound(ExactScore(ctx.originNames, ctx.table, ctx.selected, r.champions, ctx.emblems, ctx.tankPercentage))
  {
  }

  /** The shape of a team assembled from a combination of non-anchor units and one anchor unit. */
  lemma AssembledShape(others: seq<Champion>, size: nat, base: seq<Champion>, anchor: Champion)
    requires forall c :: c in others ==> !IsAnchor(c)
    requires base in Combos(others, size) && IsAnchor(anchor)
    ensures |base + [anchor]| == size + 1
    ensures forall c :: c in base + [anchor] ==> c in others || c == anchor
    ensures forall i :: 0 <= i < size ==> !IsAnchor((base + [anchor])[i])
    ensures Distinct(others) ==> Distinct(base + [anchor])
  {
    CombosMembers(others, size, base);
    var team := base + [anchor];
    forall i | 0 <= i < size ensures !IsAnchor(team[i]) {
      assert team[i] == base[i] && base[i] in others;
    }
    if Distinct(others) {
      forall i, j | 0 <= i < j < |team| ensures team[i] != team[j] {
        if j == |base| {
          assert base[i] in others;
        }
      }
    }
  }

  /**
   * Every returned record is a base of 3 to 5 non-anchor units followed by
   * exactly one anchor unit.
   */
  lemma SolutionShape(
    champions: seq<Champion>, fourCost: seq<Champion>,
    originNames: set<string>, table: map<string, seq<int>>, req: Request, r: TeamResult)
    requires r in Solution(champions, fourCost, originNames, table, req)
    ensures 4 <= r.size <= 6 && r.size == |r.champions|
    ensures r.tankCount == TankCount(r.champions) && r.carryCount == r.size - r.tankCount
    ensures IsAnchor(r.champions[r.size - 1])
    ensures forall i :: 0 <= i < r.size - 1 ==> !IsAnchor(r.champions[i])
  {
    var pool := Pool(champions, fourCost, req);
    var size, base, anchor := SolutionTeam(champions, fourCost, originNames, table, req, r);
    YieldsRecord(ContextOf(originNames, table, req), base, anchor, r);
    PartitionExact(pool);
    AssembledShape(Others(pool), size, base, anchor);
  }

  /**
   * Every unit of a returned team is in the pool: its name is not
   * blacklisted, and it is a base unit or a selected four-cost.
   */
  lemma SolutionDrawsFromPool(
    champions: seq<Champion>, fourCost: seq<Champion>,
    originNames: set<string>, table: map<string, seq<int>>, req: Request, r: TeamResult)
    requires r in Solution(champions, fourCost, originNames, table, req)
    ensures forall c :: c in r.champions ==>
      c.name !in req.blacklistedChampions && (c in champions || (c in fourCost && c.name in req.selectedFourCosts))
  {
    var pool := Pool(champions, fourCost, req);
    var size, base, anchor := SolutionTeam(champions, fourCost, originNames, table, req, r);
    YieldsRecord(ContextOf(originNames, table, req), base, anchor, r);
    PartitionExact(pool);
    AssembledShape(Others(pool), size, base, anchor);
    forall c | c in r.champions
      ensures c.name !in req.blacklistedChampions && (c in champions || (c in fourCost && c.name in req.selectedFourCosts))
    {
      assert c in pool;
      PoolMembers(champions, fourCost, req, c);
    }
  }

  /**
   * Every returned team activates at least four origins, and its record
   * holds that team's active traits, effective cost and rounded score.
   */
  lemma SolutionScored(
    champions: seq<Champion>, fourCost: seq<Champion>,
    originNames: set<string>, table: map<string, seq<int>>, req: Request, r: TeamResult)
    requires r in Solution(champions, fourCost, originNames, table, req)
    ensures r.champions != []
    ensures |ActiveOrigins(originNames, table, r.champions, req.emblems)| >= RequiredOrigins
    ensures r.traits == ActiveTraits(originNames, table, r.champions, req.emblems)
    ensures r.totalCost == EffectiveCost(r.champions, SelectedSet(req))
    ensures r.score == JsRound(ExactScore(originNames, table, SelectedSet(req), r.champions, req.emblems, req.tankPercentage))
  {
    var size, base, anchor := SolutionTeam(champions, fourCost, originNames, table, req, r);
    YieldsRecord(ContextOf(originNames, table, req), base, anchor, r);
  }

  /** When the catalog lists no unit twice, no returned team repeats a unit. */
  lemma SolutionUnitsDistinct(
    champions: seq<Champion>, fourCost: seq<Champion>,
    originNames: set<string>, table: map<string, seq<int>>, req: Request, r: TeamResult)
    requires Distinct(champions + fourCost)
    requires r in Solution(champions, fourCost, originNames, table, req)
    ensures Distinct(r.champions)
  {
    var pool := Pool(champions, fourCost, req);
    PoolDistinct(champions, fourCost, req);
    var size, base, anchor := SolutionTeam(champions, fourCost, originNames, table, req, r);
    YieldsRecord(ContextOf(originNames, table, req), base, anchor, r);
    PartitionExact(pool);
    AssembledShape(Others(pool), size, base, anchor);
  }

  /** The unit names of a team, in team order. */
  function UnitNames(cs: seq<Champion>): (names: seq<string>)
    ensures |names| == |cs| && forall i :: 0 <= i < |cs| ==> names[i] == cs[i].name
  {
    seq(|cs|, i requires 0 <= i < |cs| => cs[i].name)
  }

  /** Units with distinct names are distinct units. */
  lemma DistinctNamesDistinctUnits(cs: seq<Champion>)
    requires Distinct(UnitNames(cs))
    ensures Distinct(cs)
  {
    forall i, j | 0 <= i < j < |cs| ensures cs[i] != cs[j] {
      assert UnitNames(cs)[i] != UnitNames(cs)[j];
    }
  }

  /** Distinct units drawn from a catalog with distinct names have distinct names. */
  lemma DistinctNamesOfMembers(s: seq<Champion>, t: seq<Champion>)
    requires Distinct(UnitNames(t)) && Distinct(s)
    requires forall c :: c in s ==> c in t
    ensures Distinct(UnitNames(s))
  {
    forall i, j | 0 <= i < j < |s| ensures UnitNames(s)[i] != UnitNames(s)[j] {
      assert s[i] in t && s[j] in t;
      var a :| 0 <= a < |t| && t[a] == s[i];
      var b :| 0 <= b < |t| && t[b] == s[j];
      assert a != b by { assert s[i] != s[j]; }
      assert UnitNames(t)[a] != UnitNames(t)[b];
    }
  }

  /** When no two catalog units share a name, no two units of a returned team share a name. */
  lemma SolutionNamesDistinct(
    champions: seq<Champion>, fourCost: seq<Champion>,
    originNames: set<string>, table: map<string, seq<int>>, req: Request, r: TeamResult)
    requires Distinct(UnitNames(champions + fourCost))
    requires r in Solution(champions, fourCost, originNames, table, req)
    ensures Distinct(UnitNames(r.champions))
  {
    DistinctNamesDistinctUnits(champions + fourCost);
    SolutionUnitsDistinct(champions, fourCost, originNames, table, req, r);
    SolutionDrawsFromPool(champions, fourCost, originNames, table, req, r);
    DistinctNamesOfMembers(r.champions, champions + fourCost);
  }

  lemma PoolDistinct(champions: seq<Champion>, fourCost: seq<Champion>, req: Request)
    requires Distinct(champions + fourCost)
    ensures Distinct(Others(Pool(champions, fourCost, req)))
  {
    var pool := Pool(champions, fourCost, req);
    var candidates := champions + FourCostPool(fourCost, req.selectedFourCosts);
    FilterMultiset(fourCost, NameIn(req.selectedFourCosts));
    assert multiset(candidates) <= multiset(champions + fourCost);
    SubMultisetDistinct(candidates, champions + fourCost);
    FilterMultiset(candidates, NameNotIn(req.blacklistedChampions));
    SubMultisetDistinct(pool, candidates);
    FilterMultiset(pool, IsOther);
    SubMultisetDistinct(Others(pool), pool);
  }
}
