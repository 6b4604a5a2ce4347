# World Runes solver — a Dafny model

This project models the team-search engine of the World Runes solver, a helper for the Teamfight Tactics
"World Runes" challenge. The engine is the `TFTSolver` class. Its input is a static catalog:
- base champions and four-cost champions, each with a name, a cost, a tank flag and trait names;
- the origin and class lists;
- the breakpoint list of every trait.

`TFTSolver` then works in these steps:
- It builds the pool: the base champions plus the selected four-costs, minus the blacklisted names.
- It splits the pool into "Targon-only" anchor units and the others.
- It enumerates every 3-, 4- and 5-unit base of non-anchor units.
- It prunes bases with a pre-check.
- It extends each remaining base by each anchor unit and keeps the teams with at least four active origins.
- It scores each kept team and computes its effective cost.
- It returns the records ordered by size, then score, then cost.

The project also models `convertIconPath`, together with its `CDN_BASE` constant (app.js:9). This function
turns a game asset path into a Community Dragon URL.

Modules, in dependency order:
- `Collections`: `Option`, `Filter` (JavaScript's `filter`), `ConcatMap` (a loop that appends per element), `Distinct`.
- `Catalog`: catalog records, the origin-name set and the breakpoint dictionary that the constructor builds.
- `Combinations`: what `generateCombinations` enumerates:
  - index combinations `Choose`;
  - element combinations `Combos`;
  - the recursion of the helper, `Completions`.
- `Traits`:
  - the counting dictionary of `getActiveOrigins` and `getActiveTraits`, modelled as `Tally`: the keys in
    insertion order plus a count map;
  - what those two operations return, `ActiveOrigins` and `ActiveTraits`;
  - breakpoint tiering.
- `Scoring`: tank count, effective cost, the exact score before `Math.round`, and its integer form.
- `Ranking`: the comparator of the final `sort`, and the stable sort it induces.
- `Search`: what `solve` returns, as functions on values:
  - the pool, the anchor partition and the pre-check;
  - the three nested loops, as `ConcatMap`s;
  - the lemmas about the returned list.
- `Solver`: the class `TFTSolver`.
  - Its fields are the catalog and the lookup tables. The field `selectedFourCosts` is `None` until `Solve` stores the selected names. `ScoreTeam` reads it.
  - Every method is imperative, with the source's loops. Each is proved equal to the function of the modules above that specifies it.

## Model

| member | source | states |
|---|---|---|
| Solver.TFTSolver.constructor | solver.js:6-19 | Stores the catalog. `originNames` is the set of origin names. `traitBreakpoints` is the dictionary filled one trait at a time. `selectedFourCosts` starts unset. |
| Catalog.OriginNameSet | solver.js:14 | A name is in the set exactly when some origin entry carries it. |
| Catalog.BreakpointTableLookup | solver.js:15-18 | A name has an entry exactly when some trait carries it. The entry is the breakpoint list of the last trait with that name. |
| Catalog.BreakpointsOf | solver.js:133 | `traitBreakpoints[name] \|\| []`: a name with an entry gets exactly its stored list (a stored `[]` is truthy and comes back as is), and a name without an entry gets no breakpoints. |
| Solver.TFTSolver.Solve | solver.js:25-106 | Stores the set of selected names in `selectedFourCosts`. Returns exactly `Search.Solution` for the request with the default target 60 and the default empty blacklist. |
| Search.RequestOf | solver.js:25-29 | A missing `tankPercentage` defaults to 60 and a missing blacklist to the empty list. Given values are kept. |
| Search.SelectedSet | solver.js:32 | `new Set(selectedFourCosts)` holds exactly the selected names. |
| Search.PoolMembers | solver.js:35-39 | A unit is in the pool exactly when its name is not blacklisted and it is a base champion, or a four-cost whose name was selected. |
| Search.PartitionExact | solver.js:42-47 | The anchor units are exactly the pool units whose only trait is `Targon`, and the others are the rest. Together they are a permutation of the pool. |
| Search.PoolDistinct | solver.js:35-47 | If the catalog has no repeated unit, neither has the non-anchor pool. |
| Solver.TFTSolver.PushAllSizes | solver.js:56-96 | The size loop collects, for base sizes 3, 4 and 5 in that order, the records of every base of that size. |
| Solver.TFTSolver.PushBaseTeams | solver.js:59-95 | The base loop appends nothing for a base that fails the pre-check. For every other base it appends the anchor-loop records, in combination order. |
| Solver.TFTSolver.PushAnchorTeams | solver.js:65-94 | The anchor loop appends, in anchor order, the record `MakeResult` of every base-plus-anchor team with at least 4 active origins. It skips the others. |
| Search.PrunedBaseYieldsNothing | solver.js:61-71 | If a base fails the line-62 pre-check, no anchor extension of it passes the line-71 test. |
| Search.PreCheckSound | solver.js:61-71 | Skipping a pruned base loses no team: the base step equals running the anchor loop on every base. |
| Traits.AnchorAddsAtMostOneOrigin | solver.js:111-141 | Adding a unit whose only trait is `Targon` raises the number of active origins by at most one. |
| Search.ValidTeamsMembers | solver.js:56-94 | A record is collected exactly when some base of size 3 to 5 of the non-anchor pool, extended by some anchor unit, is accepted with that record. |
| Search.SolutionMembers | solver.js:56-105 | The returned list contains exactly the records of such assembled teams, and nothing else. |
| Search.SolutionTeam | solver.js:56-94 | Every returned record comes with its base size (3 to 5), its base (a combination of the non-anchor pool) and its anchor (an anchor unit of the pool). |
| Search.SolutionShape | solver.js:42-75 | Every result has 4 to 6 units. Its last unit is an anchor and no earlier unit is one. `tankCount` is the number of tanks and `carryCount = size - tankCount`. |
| Search.SolutionDrawsFromPool | solver.js:35-39 | No result has a blacklisted unit. A four-cost unit appears only if its name was selected. |
| Search.SolutionUnitsDistinct | solver.js:45-66 | If the catalog has no repeated unit, no result repeats a unit. |
| Search.SolutionNamesDistinct | solver.js:35-66 | If no two catalog units share a name, no two units of a returned team share a name. |
| Search.SolutionScored | solver.js:70-92 | Every result has at least 4 active origins. Its traits are `getActiveTraits` of the team, its cost is the effective cost, and its score is the rounded exact score; `Search.SolutionShape` gives its size and tank and carry counts. |
| Search.AssembledShape | solver.js:57-67 | A base combination followed by an anchor has `size + 1` units, all drawn from the pool. Only the last is an anchor. It has no repeats when the pool has none. |
| Search.SolutionIsSortedPermutation | solver.js:99-105 | The returned list is ordered by the comparator and is a permutation of the collected records. |
| Ranking.CompareIsInOrder | solver.js:99-103 | The comparator allows `a` before `b` exactly when `a` is smaller, or the same size with a higher score, or the same size and score with a cost no higher. |
| Ranking.SortTeamsCorrect | solver.js:99-103 | The sorted list is ordered, every adjacent pair is in comparator order, and it is a permutation of its input. |
| Ranking.InsertSorted | solver.js:99-103 | Inserting into an ordered list keeps it ordered. |
| Ranking.InsertStable | solver.js:99-103 | Insertion puts a new record after all records with equal keys. |
| Ranking.SortTeamsStable | solver.js:99-103 | The sort is stable: records with equal size, score and cost keep their discovery order. |
| Solver.TFTSolver.GetActiveOrigins | solver.js:111-141 | Returns exactly `Traits.ActiveOrigins`, built by the loops over the team's traits, the emblems and the counted keys. |
| Traits.TallyOfCounts | solver.js:112-128 | Each counted name becomes a key exactly once, and its count is the number of its occurrences. |
| Traits.ActiveOriginsSpec | solver.js:111-141 | No name is listed twice. A name is listed exactly when its count is positive and reaches a breakpoint. The reported count counts the team's origin traits plus every emblem naming it. |
| Traits.ActiveOriginsSize | solver.js:131-138 | The number of active origins is the number of counted names that reach a breakpoint. |
| Traits.NonOriginEmblemCountsAsOrigin | solver.js:124-128 | The emblem loop does not check origin membership: an emblem naming a non-origin trait is listed as an active origin once it reaches a breakpoint. |
| Solver.TFTSolver.GetActiveTraits | solver.js:146-187 | Returns exactly `Traits.ActiveTraits`, built by the counting loops and the loop over the counted keys. |
| Solver.TFTSolver.ActiveBreakpoint | solver.js:169-174 | The `activeBreakpoint` loop returns the last breakpoint in list order that the count reaches, or none. |
| Traits.ActiveTraitsSpec | solver.js:146-187 | No name is listed twice. A trait is listed exactly when its count is positive and reaches a breakpoint. The entry carries that count, the last breakpoint reached, and whether the trait is an origin. Emblems count only for origins. |
| Traits.UnknownTraitNeverActive | solver.js:163-176 | A trait without a breakpoint entry is never listed, by either operation. |
| Traits.NonOriginEmblemIgnoredByTraits | solver.js:157-161 | An emblem that does not name an origin leaves `getActiveTraits` unchanged. |
| Traits.LastReachedExists | solver.js:169-176 | A trait gets a breakpoint exactly when some breakpoint is reached, so both tests agree. |
| Traits.LastReachedIsLast | solver.js:169-174 | The reported breakpoint is reached and no later breakpoint in the list is. |
| Traits.LastReachedIsHighest | solver.js:168-174 | For an increasing list, the reported breakpoint is the largest breakpoint reached. |
| Traits.TieringExample | solver.js:169-174 | Breakpoints [2, 4, 6]: count 5 reports 4, and count 1 is inactive. |
| Traits.ReachedIffFirst | solver.js:134 | For a non-empty increasing list, some breakpoint is reached exactly when the first one is. |
| Traits.ReachedMonotone | solver.js:134 | Activation is monotone in the count. |
| Traits.MetCountIsTier | solver.js:200-203 | Some breakpoint is met exactly when the met count is positive. For an increasing list the met count is the position of the reported tier plus one. |
| Solver.TFTSolver.ScoreTeam | solver.js:192-225 | The score is `Math.round` of the exact formula. It equals the integer quotient `(2n·A − \|100t − P·n\| + n) div 2n`, where `A` is the integer part, `n` the team size, `t` the tank count and `P` the target. |
| Scoring.ExactScoreSplit | solver.js:217-222 | The exact score is the integer part (20 per origin, 15 per class, 10 per breakpoint met, minus twice the cost) minus half the tank-share deviation. |
| Scoring.RoundingInIntegers | solver.js:205-224 | Rounding half up an integer minus half of `\|100t/n − P\|` equals that integer quotient. |
| Scoring.EffectiveCostIgnoresSelected | solver.js:212-214 | The effective cost is the catalog cost of the units whose names were not selected. |
| Scoring.SelectedUnitIsFree | solver.js:81-83 | Adding a selected four-cost leaves the effective cost unchanged. |
| Scoring.OriginsAndClassesPartition | solver.js:196-197 | Every active trait is counted once, as an origin or as a class. |
| Scoring.TotalBreakpointsAtLeastActive | solver.js:200-203 | Every active trait adds at least one met breakpoint to the total. |
| Solver.TFTSolver.GenerateCombinations | solver.js:230-248 | Returns exactly `Combinations.Combos(array, k)`. |
| Solver.TFTSolver.Helper | solver.js:233-244 | One call appends every completion of `combo` from position `start` on, in the helper's visiting order. |
| Combinations.CompletionsAreExtensions | solver.js:233-246 | The helper's recursion enumerates exactly the increasing index sequences of `Choose`, in order. |
| Combinations.CombosShape | solver.js:230-248 | There are C(n, k) combinations, each with `k` elements. `k = 0` gives one empty combination and `k > n` gives none. |
| Combinations.CombosComplete | solver.js:230-248 | The elements at every increasing sequence of `k` positions occur among the combinations. |
| Combinations.CombosSound | solver.js:230-248 | Each combination is the elements at an increasing sequence of `k` positions. |
| Combinations.CombosMembers | solver.js:230-248 | A combination has `k` elements drawn from the array. It has no repeats when the array has none. |
| Combinations.ChooseCount | solver.js:239-243 | The index combinations number C(hi − lo, k). |
| Combinations.ChooseSorted | solver.js:239-243 | The index combinations come in strictly increasing lexicographic order. |
| Combinations.ChooseDistinct | solver.js:239-243 | No index combination is listed twice. |
| IconPath.ReplaceLeading | app.js:546 | An anchored prefix replacement: only a match at the start is replaced, and the rest is kept. |
| IconPath.ReplaceTrailing | app.js:547 | An anchored suffix replacement: only a match at the end is replaced, and the rest is kept. |
| IconPath.Lower | app.js:549 | Lowercasing keeps the length and lowercases each ASCII letter. |
| IconPath.ConvertKeepsBaseAndLength | app.js:542-552 | Every URL starts with `CDN_BASE` and is exactly `\|CDN_BASE\|` longer than the path. |
| IconPath.Set16RewriteNeverFires | app.js:547-548 | After the `.tex` rewrite no string ends in `.TFT_Set16.tex`. |
| IconPath.ConvertWithoutSet16Rewrite | app.js:545-551 | Dropping the `.TFT_Set16.tex` rewrite gives the same URL for every path. |
| IconPath.ConvertHasNoUppercase | app.js:549-551 | Nothing after `CDN_BASE` is an upper-case ASCII letter. |
| IconPath.PlainPathOnlyLowercased | app.js:545-551 | A path with neither the `ASSETS/` prefix nor the `.tex` suffix is only lowercased. |
| IconPath.ConvertRewritesPrefix | app.js:546-549 | A leading `ASSETS/` arrives as `assets/`. |
| IconPath.ConvertRewritesSuffix | app.js:547-549 | A trailing `.tex` arrives as `.png`. |
| IconPath.ConvertLowercasesMiddle | app.js:545-551 | Between the first 7 characters and the last 4, the URL is the path lowercased. |
| IconPath.IconExample | app.js:542-552 | `ASSETS/Ab.tex` becomes `CDN_BASE + "assets/ab.png"`. |

## Left out

- The rest of app.js is left out: data loading, tooltips, pickers and their `localeCompare` sorts, the `setTimeout` dispatch, and rendering. All of it is DOM and I/O glue.
- The debug scripts analyze-origins.js, test-3-origins.js, test-solver.js and test.js are left out. They print to the console and depend on a data file that is not part of this model.
- The global export `window.TFTSolver = TFTSolver` (solver.js:252) is left out.
- `requiredOrigins` (solver.js:53) is computed but never used, so the model has no counterpart. The acceptance threshold is the constant 4 of line 71.
- Solver.TFTSolver.ScoreTeam: computes over exact reals, not IEEE-754 doubles, so rounding errors in `(tankCount / team.length) * 100` are not modelled.
- Solver.TFTSolver.ScoreTeam: `tankPercentage` is an integer. The integer quotient form depends on that.
- Solver.TFTSolver.ScoreTeam: requires a non-empty team. The source divides by the team size and would produce `NaN` for an empty team; every team `solve` scores has at least four units.
- Solver.TFTSolver.ScoreTeam: requires `selectedFourCosts` to be set. Before the first `solve` the source field is `undefined` and `scoreTeam` throws.
- `Object.entries` order is modelled as first-insertion order of the keys. JavaScript lists integer-like keys first; trait names are not integer-like.
- Prototype-inherited keys of the plain-object dictionaries are not modelled.
- IconPath.Lower: only ASCII letters are lowercased. JavaScript's `toLowerCase` also changes other letters, and can change the length for some characters.
- Solver.TFTSolver.Solve: the sort is modelled as a function on values, the stable insertion sort `Ranking.SortTeams`, applied to the collected list. It is not the in-place `Array.prototype.sort`. Only its result is stated: ordered, a permutation, and stable.
- Solver.TFTSolver.Solve: the three loop levels are split into the methods `PushAllSizes`, `PushBaseTeams` and `PushAnchorTeams`. `validTeams` is a value threaded through them, not a shared array pushed in place. The `activeBreakpoint` loop of `getActiveTraits` is likewise the method `ActiveBreakpoint`.
- Solver.TFTSolver.Solve: the default arguments `emblems = []` and `selectedFourCosts = []` are left to the caller. Only the `preferences` defaults are modelled, through `Search.Preferences`.
- Solver.TFTSolver.Helper: the shared `combo` array is a sequence value. The push before the recursive call and the pop after it are reassignments. The accumulated `combinations` list is threaded through the calls instead of captured by a closure.
- `filter`, `some` and `reduce` are called as the functions `Filter`, `Reached`, `TankCount` and `EffectiveCost` rather than written as loops.
