/**
 * The `TFTSolver` class: the lookup tables built by its constructor, the
 * field `selectedFourCosts` that `solve` sets and `scoreTeam` reads, and
 * the loops of each operation. Every method is proved against the
 * functions of the modules it imports, whose properties are proved there.
 */
module Solver {
  import opened Collections
  import opened Catalog
  import opened Combinations
  import opened Traits
  import opened Scoring
  import opened Ranking
  import opened Search

  class TFTSolver {
    const champions: seq<Champion>
    const fourCostChampions: seq<Champion>
    const origins: seq<NamedEntry>
    const classes: seq<NamedEntry>
    const traits: seq<TraitEntry>
    const originNames: set<string>
    const traitBreakpoints: map<string, seq<int>>

    /** `undefined` (None) until the first `solve` call stores the selected names. */
    var selectedFourCosts: Option<set<string>>

    /**
     * Keeps the catalog, collects the origin names, and fills the breakpoint
     * dictionary one trait entry at a time.
     */
    constructor (data: GameData)
      ensures champions == data.champions && fourCostChampions == data.fourCostChampions
      ensures origins == data.origins && classes == data.classes && traits == data.traits
      ensures originNames == OriginNameSet(data.origins)
      ensures traitBreakpoints == BreakpointTable(data.traits)
      ensures selectedFourCosts == None
    {
      champions := data.champions;
      fourCostChampions := data.fourCostChampions;
      origins := data.origins;
      classes := data.classes;
      traits := data.traits;
      originNames := set o | o in data.origins :: o.name;
      var table: map<string, seq<int>> := map[];
      for i := 0 to |data.traits|
        invariant table == BreakpointTable(data.traits[..i])
      {
        var t := data.traits[i];
        table := table[t.name := t.breakpoints];
        assert data.traits[..i + 1][..i] == data.traits[..i];
      }
      assert data.traits[..|data.traits|] == data.traits;
      traitBreakpoints := table;
      selectedFourCosts := None;
    }

    /**
     * Counts the team's origin traits, then every non-empty emblem, and
     * lists the counted names that reach a breakpoint, in first-count order.
     */
    method GetActiveOrigins(team: seq<Champion>, emblems: seq<string>) returns (activeOrigins: seq<OriginCount>)
      ensures activeOrigins == ActiveOrigins(originNames, traitBreakpoints, team, emblems)
    {
      var originCounts := Tally([], map[]);
      for i := 0 to |team|
        invariant originCounts == TallyOf(Only(Occurrences(team[..i]), originNames))
      {
        var champ := team[i];
        ghost var done := Occurrences(team[..i]);
        assert done + champ.traits[..0] == done;
        for j := 0 to |champ.traits|
          invariant originCounts == TallyOf(Only(done + champ.traits[..j], originNames))
        {
          var traitName := champ.traits[j];
          if traitName in originNames {
            originCounts := Bump(originCounts, traitName);
          }
          CountOnlyStep(done, champ.traits, j, originNames);
        }
        assert champ.traits[..|champ.traits|] == champ.traits;
        OccurrencesPrefix(team, i);
      }
      assert team[..|team|] == team;
      ghost var fromTeam := Only(Occurrences(team), originNames);
      assert fromTeam + Present(emblems[..0]) == fromTeam;
      for e := 0 to |emblems|
        invariant originCounts == TallyOf(fromTeam + Present(emblems[..e]))
      {
        var emblem := emblems[e];
        if emblem != "" {
          originCounts := Bump(originCounts, emblem);
        }
        CountEmblemStep(fromTeam, emblems, e);
      }
      assert emblems[..|emblems|] == emblems;
      var keys := originCounts.keys;
      var counts := originCounts.counts;
      activeOrigins := [];
      for k := 0 to |keys|
        invariant activeOrigins == SelectOrigins(traitBreakpoints, keys[..k], counts)
      {
        var origin := keys[k];
        var count := counts[origin];
        var breakpoints := if origin in traitBreakpoints then traitBreakpoints[origin] else [];
        var hitBreakpoint := Reached(breakpoints, count);
        if hitBreakpoint {
          activeOrigins := activeOrigins + [OriginCount(origin, count)];
        }
        SelectOriginsStep(traitBreakpoints, keys, counts, k);
      }
      assert keys[..|keys|] == keys;
    }

    /**
     * Counts every trait of the team, then the emblems that name origins,
     * and lists each counted trait that reaches a breakpoint with the last
     * breakpoint it reaches.
     */
    method GetActiveTraits(team: seq<Champion>, emblems: seq<string>) returns (activeTraits: seq<ActiveTrait>)
      ensures activeTraits == ActiveTraits(originNames, traitBreakpoints, team, emblems)
    {
      var traitCounts := Tally([], map[]);
      for i := 0 to |team|
        invariant traitCounts == TallyOf(Occurrences(team[..i]))
      {
        var champ := team[i];
        ghost var done := Occurrences(team[..i]);
        assert done + champ.traits[..0] == done;
        for j := 0 to |champ.traits|
          invariant traitCounts == TallyOf(done + champ.traits[..j])
        {
          var traitName := champ.traits[j];
          traitCounts := Bump(traitCounts, traitName);
          CountStep(done, champ.traits, j);
        }
        assert champ.traits[..|champ.traits|] == champ.traits;
        OccurrencesPrefix(team, i);
      }
      assert team[..|team|] == team;
      ghost var fromTeam := Occurrences(team);
      assert fromTeam + Only(Present(emblems[..0]), originNames) == fromTeam;
      for e := 0 to |emblems|
        invariant traitCounts == TallyOf(fromTeam + Only(Present(emblems[..e]), originNames))
      {
        var emblem := emblems[e];
        if emblem != "" && emblem in originNames {
          traitCounts := Bump(traitCounts, emblem);
        }
        CountOriginEmblemStep(fromTeam, emblems, e, originNames);
      }
      assert emblems[..|emblems|] == emblems;
      var keys := traitCounts.keys;
      var counts := traitCounts.counts;
      activeTraits := [];
      for k := 0 to |keys|
        invariant activeTraits == SelectTraits(originNames, traitBreakpoints, keys[..k], counts)
      {
        var traitName := keys[k];
        var count := counts[traitName];
        var breakpoints := if traitName in traitBreakpoints then traitBreakpoints[traitName] else [];
        var activeBreakpoint := ActiveBreakpoint(breakpoints, count);
        if activeBreakpoint != None {
          activeTraits := activeTraits + [ActiveTrait(traitName, count, activeBreakpoint.value, traitName in originNames)];
        }
        SelectTraitsStep(originNames, traitBreakpoints, keys, counts, k);
      }
      assert keys[..|keys|] == keys;
    }

    /**
     * The `activeBreakpoint` loop of `getActiveTraits`: the last breakpoint
     * in list order that `count` reaches, if any.
     */
    method ActiveBreakpoint(breakpoints: seq<int>, count: int) returns (activeBreakpoint: Option<int>)
      ensures activeBreakpoint == LastReached(breakpoints, count)
    {
      activeBreakpoint := None;
      for b := 0 to |breakpoints|
        invariant activeBreakpoint == LastReached(breakpoints[..b], count)
      {
        if count >= breakpoints[b] {
          activeBreakpoint := Some(breakpoints[b]);
        }
        LastReachedStep(breakpoints, count, b);
      }
      assert breakpoints[..|breakpoints|] == breakpoints;
    }

    /**
     * The rounded score of the team. Reads the selected four-costs stored by
     * `solve`; the result is also the integer quotient
     * `(2n·A − |100t − P·n| + n) div 2n` of the integer part `A`, the team
     * size `n`, the tank count `t` and the target `P`.
     */
    method ScoreTeam(team: seq<Champion>, emblems: seq<string>, tankPercentage: int) returns (score: int)
      requires selectedFourCosts.Some? && |team| > 0
      ensures score == JsRound(ExactScore(originNames, traitBreakpoints, selectedFourCosts.value, team, emblems, tankPercentage))
      ensures score == (2 * |team| * IntegerPart(originNames, traitBreakpoints, selectedFourCosts.value, team, emblems)
                        - Abs(100 * TankCount(team) - tankPercentage * |team|) + |team|) / (2 * |team|)
    {
      var traits := GetActiveTraits(team, emblems);
      var originsAtBreakpoint := OriginTraitCount(traits);
      var classesAtBreakpoint := ClassTraitCount(traits);
      var totalBreakpoints := TotalBreakpoints(traitBreakpoints, traits);
      var tankCount := TankCount(team);
      var actualTankPercentage := (tankCount as real / |team| as real) * 100.0;
      var balanceDiff := RealAbs(actualTankPercentage - tankPercentage as real);
      var balancePenalty := balanceDiff * 0.5;
      var totalCost := EffectiveCost(team, selectedFourCosts.value);
      var exact := (originsAtBreakpoint * 20) as real
        + (classesAtBreakpoint * 15) as real
        + (totalBreakpoints * 10) as real
        - balancePenalty
        - (totalCost * 2) as real;
      assert balancePenalty == BalancePenalty(tankCount, |team|, tankPercentage);
      assert exact == ExactScore(originNames, traitBreakpoints, selectedFourCosts.value, team, emblems, tankPercentage);
      score := JsRound(exact);
      ExactScoreSplit(originNames, traitBreakpoints, selectedFourCosts.value, team, emblems, tankPercentage);
      RoundingInIntegers(IntegerPart(originNames, traitBreakpoints, selectedFourCosts.value, team, emblems),
                         tankCount, |team|, tankPercentage);
    }

    /** Every `k`-element combination of `elements`, in lexicographic index order. */
    method GenerateCombinations<T>(elements: seq<T>, k: nat) returns (combinations: seq<seq<T>>)
      ensures combinations == Combos(elements, k)
    {
      combinations := Helper(elements, k, 0, [], []);
      CompletionsAreExtensions(elements, [], 0, k);
    }

    /**
     * The recursive `helper(start, combo)`: appends to `combinations` every
     * completion of `combo` by elements at positions from `start` on.
     */
    method Helper<T>(elements: seq<T>, k: nat, start: nat, combo: seq<T>, combinations: seq<seq<T>>)
      returns (result: seq<seq<T>>)
      requires |combo| <= k && start <= |elements|
      ensures result == combinations + Completions(elements, combo, start, k - |combo|)
      decreases |elements| - start
    {
      if |combo| == k {
        result := combinations + [combo];
        return;
      }
      var need := k - |combo|;
      result := combinations;
      var current := combo;
      for i := start to |elements|
        invariant current == combo
        invariant result + Completions(elements, combo, i, need)
          == combinations + Completions(elements, combo, start, need)
      {
        ghost var before := result;
        current := current + [elements[i]];
        result := Helper(elements, k, i + 1, current, result);
        AppendAssociative(before, Completions(elements, combo + [elements[i]], i + 1, need - 1),
                          Completions(elements, combo, i + 1, need));
        assert current[..|current| - 1] == combo;
        current := current[..|current| - 1];
      }
      assert result + [] == result;
    }

    /**
     * Stores the selected four-costs, enumerates every base of 3 to 5
     * non-anchor units of the pool, extends each admitted base by every
     * anchor unit, keeps the teams with at least four active origins, and
     * returns their records ranked.
     */
    method Solve(emblems: seq<string>, selectedFourCosts: seq<string>, preferences: Preferences)
      returns (validTeams: seq<TeamResult>)
      modifies this
      ensures this.selectedFourCosts == Some(SelectedSet(RequestOf(emblems, selectedFourCosts, preferences)))
      ensures validTeams == Solution(champions, fourCostChampions, originNames, traitBreakpoints,
                                     RequestOf(emblems, selectedFourCosts, preferences))
    {
      var tankPercentage := if preferences.tankPercentage.Some? then preferences.tankPercentage.value
                            else DefaultTankPercentage;
      var blacklistedChampions := if preferences.blacklistedChampions.Some? then preferences.blacklistedChampions.value
                                  else [];
      ghost var req := RequestOf(emblems, selectedFourCosts, preferences);
      assert req == Request(emblems, selectedFourCosts, tankPercentage, blacklistedChampions);
      this.selectedFourCosts := Some(set n | n in selectedFourCosts);
      assert this.selectedFourCosts == Some(SelectedSet(req));

      var fourCostPool := Filter(fourCostChampions, NameIn(selectedFourCosts));
      var allChampions := Filter(champions + fourCostPool, NameNotIn(blacklistedChampions));
      var targonChampions := Filter(allChampions, IsAnchor);
      var nonTargonChampions := Filter(allChampions, IsOther);
      ghost var pool := Pool(champions, fourCostChampions, req);
      assert allChampions == pool;
      ghost var ctx := ContextOf(originNames, traitBreakpoints, req);
      assert ctx == Context(originNames, traitBreakpoints, ctx.selected, emblems, tankPercentage);

      validTeams := PushAllSizes(nonTargonChampions, targonChampions, emblems, tankPercentage, ctx);
      assert validTeams == ValidTeams(ctx, Others(pool), Anchors(pool));
      validTeams := SortTeams(validTeams);
    }

    /**
     * The size loop of `solve`: enumerates the bases of each size from 3 to
     * 5 and collects the records of their accepted teams.
     */
    method PushAllSizes(
      nonTargonChampions: seq<Champion>, targonChampions: seq<Champion>,
      emblems: seq<string>, tankPercentage: int, ghost ctx: Context)
      returns (validTeams: seq<TeamResult>)
      requires ctx == Context(originNames, traitBreakpoints, ctx.selected, emblems, tankPercentage)
      requires selectedFourCosts == Some(ctx.selected)
      ensures validTeams == ValidTeams(ctx, nonTargonChampions, targonChampions)
    {
      validTeams := [];
      for baseTeamSize := MinBaseSize to MaxBaseSize + 1
        invariant validTeams
          == ConcatMap(SizeStep(ctx, nonTargonChampions, targonChampions), BaseSizes[..baseTeamSize - MinBaseSize])
      {
        var combinations := GenerateCombinations(nonTargonChampions, baseTeamSize);
        validTeams := PushBaseTeams(validTeams, combinations, targonChampions, emblems, tankPercentage, ctx);
        ValidTeamsSnoc(ctx, nonTargonChampions, targonChampions, baseTeamSize - MinBaseSize);
      }
      assert BaseSizes[..MaxBaseSize + 1 - MinBaseSize] == BaseSizes;
    }

    /**
     * The base loop of `solve` for one base size: skips each base that fails
     * the pre-check and runs the anchor loop on the others.
     */
    method PushBaseTeams(
      validTeams: seq<TeamResult>, combinations: seq<seq<Champion>>, targonChampions: seq<Champion>,
      emblems: seq<string>, tankPercentage: int, ghost ctx: Context)
      returns (pushed: seq<TeamResult>)
      requires ctx == Context(originNames, traitBreakpoints, ctx.selected, emblems, tankPercentage)
      requires selectedFourCosts == Some(ctx.selected)
      ensures pushed == validTeams + BaseTeams(ctx, combinations, targonChampions)
    {
      pushed := validTeams;
      for b := 0 to |combinations|
        invariant pushed == validTeams + BaseTeams(ctx, combinations[..b], targonChampions)
      {
        var baseTeam := combinations[b];
        ghost var found := BaseTeams(ctx, combinations[..b], targonChampions);
        BaseTeamsPrefix(ctx, combinations, targonChampions, b);
        var baseOrigins := GetActiveOrigins(baseTeam, emblems);
        if |baseOrigins| < Max0(3 - |emblems|) {
          assert !BaseAdmitted(ctx, baseTeam);
          assert found + [] == found;
          continue;
        }
        assert BaseAdmitted(ctx, baseTeam);
        pushed := PushAnchorTeams(pushed, baseTeam, targonChampions, emblems, tankPercentage, ctx);
        AppendAssociative(validTeams, found, AnchorTeams(ctx, baseTeam, targonChampions));
      }
      assert combinations[..|combinations|] == combinations;
    }

    /**
     * The anchor loop of `solve` for one admitted base: pushes the record of
     * every base-plus-anchor team that activates enough origins.
     */
    method PushAnchorTeams(
      validTeams: seq<TeamResult>, baseTeam: seq<Champion>, targonChampions: seq<Champion>,
      emblems: seq<string>, tankPercentage: int, ghost ctx: Context)
      returns (pushed: seq<TeamResult>)
      requires ctx == Context(originNames, traitBreakpoints, ctx.selected, emblems, tankPercentage)
      requires selectedFourCosts == Some(ctx.selected)
      ensures pushed == validTeams + AnchorTeams(ctx, baseTeam, targonChampions)
    {
      pushed := validTeams;
      for t := 0 to |targonChampions|
        invariant pushed == validTeams + AnchorTeams(ctx, baseTeam, targonChampions[..t])
      {
        var targonChamp := targonChampions[t];
        ghost var found := AnchorTeams(ctx, baseTeam, targonChampions[..t]);
        AnchorTeamsPrefix(ctx, baseTeam, targonChampions, t);
        var team := baseTeam + [targonChamp];
        var teamSize := |team|;
        var teamOrigins := GetActiveOrigins(team, emblems);
        if |teamOrigins| < RequiredOrigins {
          assert !Accepted(ctx, team);
          assert found + [] == found;
          continue;
        }
        var tankCount := TankCount(team);
        var carryCount := |team| - tankCount;
        var score := ScoreTeam(team, emblems, tankPercentage);
        var totalCost := EffectiveCost(team, selectedFourCosts.value);
        var traits := GetActiveTraits(team, emblems);
        var record := TeamResult(team, score, teamSize, tankCount, carryCount, totalCost, traits);
        assert Accepted(ctx, team);
        assert score == JsRound(ExactScore(ctx.originNames, ctx.table, ctx.selected, team, ctx.emblems, ctx.tankPercentage));
        assert record == MakeResult(ctx, team);
        AppendAssociative(validTeams, found, [record]);
        pushed := pushed + [record];
      }
      assert targonChampions[..|targonChampions|] == targonChampions;
    }
  }
}
