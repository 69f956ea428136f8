/**
 * The filter state of the recipe client: the filter record and the
 * single-select chip groups that `toggleFilterChip`, `applyFilters` and
 * `clearAllFilters` update (recipe-finder/script.js).
 */
module Filters {
  import opened JsString

  /** `state.filters`: every field is a string or null. */
  datatype Filters = Filters(
    diet: Option<string>,
    cuisine: Option<string>,
    time: Option<string>,
    meal: Option<string>,
    difficulty: Option<string>)

  /** The record every field of which is null. */
  const NoFilters := Filters(None, None, None, None, None)

  /** The `data-diet` and `data-cuisine` attributes of one filter chip. */
  datatype Chip = Chip(diet: Option<string>, cuisine: Option<string>)

  /** The two chip groups, named after the filter field each one sets. */
  datatype Group = Diet | Cuisine

  /** `chip.dataset.diet ? 'diet' : 'cuisine'` */
  function GroupOf(c: Chip): Group {
    if Truthy(c.diet) then Diet else Cuisine
  }

  /** `chip.dataset[filterType]` */
  function ValueIn(c: Chip, g: Group): Option<string> {
    match g
    case Diet => c.diet
    case Cuisine => c.cuisine
  }

  /** The chip carries a (truthy) value for the group: a sibling the group deactivates. */
  predicate InGroup(c: Chip, g: Group) {
    Truthy(ValueIn(c, g))
  }

  /** `filters[filterType]` */
  function FilterFor(f: Filters, g: Group): Option<string> {
    match g
    case Diet => f.diet
    case Cuisine => f.cuisine
  }

  /** `filters[filterType] = v`: that field changes and every other field stays. */
  function WithFilter(f: Filters, g: Group, v: Option<string>): (r: Filters)
    ensures FilterFor(r, g) == v
    ensures g == Diet ==> r.cuisine == f.cuisine
    ensures g == Cuisine ==> r.diet == f.diet
    ensures r.time == f.time && r.meal == f.meal && r.difficulty == f.difficulty
  {
    match g
    case Diet => f.(diet := v)
    case Cuisine => f.(cuisine := v)
  }

  /** Every chip belongs to exactly one group, as the page's chips do. */
  predicate WellFormed(chips: seq<Chip>) {
    forall k :: 0 <= k < |chips| ==> Truthy(chips[k].diet) != Truthy(chips[k].cuisine)
  }

  /**
   * Within group `g` at most one chip is active, the filter field holds the
   * value of the active chip, and it is null when no chip of the group is
   * active.
   */
  ghost predicate GroupConsistent(chips: seq<Chip>, active: seq<bool>, f: Filters, g: Group)
    requires |active| == |chips|
  {
    && (forall j, k :: 0 <= j < k < |chips| && active[j] && active[k] ==> !(InGroup(chips[j], g) && InGroup(chips[k], g)))
    && (forall k :: 0 <= k < |chips| && active[k] && InGroup(chips[k], g) ==> FilterFor(f, g) == ValueIn(chips[k], g))
    && ((forall k :: 0 <= k < |chips| && active[k] ==> !InGroup(chips[k], g)) ==> FilterFor(f, g) == None)
  }

  /** The chips on screen and the filter record agree, in both groups. */
  ghost predicate Consistent(chips: seq<Chip>, active: seq<bool>, f: Filters)
    requires |active| == |chips|
  {
    GroupConsistent(chips, active, f, Diet) && GroupConsistent(chips, active, f, Cuisine)
  }

  /** The chip states after chip `i` is clicked. */
  function ActiveAfterToggle(chips: seq<Chip>, active: seq<bool>, i: nat): (r: seq<bool>)
    requires |active| == |chips| && i < |chips|
    ensures |r| == |chips|
  {
    var g := GroupOf(chips[i]);
    seq(|chips|, k requires 0 <= k < |chips| =>
      if k == i then !active[i]
      else if !active[i] && InGroup(chips[k], g) then false
      else active[k])
  }

  /** The filter record after chip `i` is clicked. */
  function FiltersAfterToggle(chips: seq<Chip>, active: seq<bool>, f: Filters, i: nat): Filters
    requires |active| == |chips| && i < |chips|
  {
    var g := GroupOf(chips[i]);
    WithFilter(f, g, if !active[i] then ValueIn(chips[i], g) else None)
  }

  /** A click on a chip keeps the chips and the filter record in agreement. */
  lemma ToggleKeepsConsistent(chips: seq<Chip>, active: seq<bool>, f: Filters, i: nat)
    requires |active| == |chips| && i < |chips|
    requires WellFormed(chips) && Consistent(chips, active, f)
    ensures Consistent(chips, ActiveAfterToggle(chips, active, i), FiltersAfterToggle(chips, active, f, i))
  {
    var g := GroupOf(chips[i]);
    var h := if g == Diet then Cuisine else Diet;
    var a' := ActiveAfterToggle(chips, active, i);
    var f' := FiltersAfterToggle(chips, active, f, i);
    assert InGroup(chips[i], g) && !InGroup(chips[i], h);
    assert FilterFor(f', h) == FilterFor(f, h);
    assert forall k :: 0 <= k < |chips| && InGroup(chips[k], h) ==> a'[k] == active[k];
    assert GroupConsistent(chips, a', f', h);
    if active[i] {
      assert forall k :: 0 <= k < |chips| && a'[k] ==> !InGroup(chips[k], g);
    } else {
      assert forall k :: 0 <= k < |chips| && a'[k] && InGroup(chips[k], g) ==> k == i;
    }
    assert GroupConsistent(chips, a', f', g);
  }

  /** Reading the advanced filter controls leaves the chip groups consistent. */
  lemma AdvancedKeepsConsistent(chips: seq<Chip>, active: seq<bool>, f: Filters, time: Option<string>, meal: Option<string>, difficulty: Option<string>)
    requires |active| == |chips| && Consistent(chips, active, f)
    ensures Consistent(chips, active, f.(time := time, meal := meal, difficulty := difficulty))
  {
  }
}
