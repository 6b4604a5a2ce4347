/**
 * The static game catalog the solver is built from, the records it returns,
 * and the two lookup tables its constructor derives from the catalog.
 */
module Catalog {

  /** A unit of the catalog. */
  datatype Champion = Champion(name: string, cost: int, traits: seq<string>, isTank: bool)

  /** An entry of `data.traits`: a trait name and its breakpoint thresholds. */
  datatype TraitEntry = TraitEntry(name: string, breakpoints: seq<int>)

  /** An entry of `data.origins` or `data.classes`; the solver only reads its name. */
  datatype NamedEntry = NamedEntry(name: string)

  /** The data object handed to the solver's constructor. */
  datatype GameData = GameData(
    champions: seq<Champion>,
    fourCostChampions: seq<Champion>,
    origins: seq<NamedEntry>,
    classes: seq<NamedEntry>,
    traits: seq<TraitEntry>)

  /** An element of the active-origin list: an origin name and its count. */
  datatype OriginCount = OriginCount(name: string, count: nat)

  /** An element of the active-trait list. */
  datatype ActiveTrait = ActiveTrait(name: string, count: nat, breakpoint: int, isOrigin: bool)

  /** A result record pushed by `solve`. */
  datatype TeamResult = TeamResult(
    champions: seq<Champion>,
    score: int,
    size: nat,
    tankCount: nat,
    carryCount: int,
    totalCost: int,
    traits: seq<ActiveTrait>)

  /** The set of origin names (`new Set(origins.map(o => o.name))`). */
  function OriginNameSet(origins: seq<NamedEntry>): (names: set<string>)
    ensures forall n :: n in names <==> exists i :: 0 <= i < |origins| && origins[i].name == n
  {
    set o | o in origins :: o.name
  }

  /**
   * The breakpoint dictionary as the constructor's `forEach` leaves it:
   * one assignment per trait entry, in order, so a later entry with the
   * same name overwrites an earlier one.
   */
  function BreakpointTable(traits: seq<TraitEntry>): map<string, seq<int>>
  {
    if traits == [] then map[]
    else
      var last := traits[|traits| - 1];
      BreakpointTable(traits[..|traits| - 1])[last.name := last.breakpoints]
  }

  /**
   * A name is a key of the table exactly when some entry carries it, and
   * its value is the breakpoint list of the last such entry.
   */
  lemma {:induction false} BreakpointTableLookup(traits: seq<TraitEntry>, name: string)
    ensures name in BreakpointTable(traits) <==> exists i :: 0 <= i < |traits| && traits[i].name == name
    ensures name in BreakpointTable(traits) ==>
      exists i :: 0 <= i < |traits| && traits[i].name == name
        && BreakpointTable(traits)[name] == traits[i].breakpoints
        && forall j :: i < j < |traits| ==> traits[j].name != name
  {
    if traits != [] {
      var n := |traits| - 1;
      var init := traits[..n];
      BreakpointTableLookup(init, name);
      if traits[n].name == name {
        assert BreakpointTable(traits)[name] == traits[n].breakpoints;
      } else {
        assert name in BreakpointTable(traits) <==> name in BreakpointTable(init);
        if name in BreakpointTable(init) {
          var i :| 0 <= i < |init| && init[i].name == name
            && BreakpointTable(init)[name] == init[i].breakpoints
            && forall j :: i < j < |init| ==> init[j].name != name;
          assert traits[i] == init[i];
        }
        assert forall i :: 0 <= i < n ==> traits[i] == init[i];
      }
    }
  }

  /** `this.traitBreakpoints[name] || []`. */
  function BreakpointsOf(table: map<string, seq<int>>, name: string): (bps: seq<int>)
    ensures name in table ==> bps == table[name]
    ensures name !in table ==> bps == []
  {
    if name in table then table[name] else []
  }
}
