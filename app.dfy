/**
 * The state object of the recipe client (`app.state` in
 * recipe-finder/script.js) and the handlers that change it in place: loading
 * results, revealing more, sorting, toggling favourites and setting filters.
 */
module App {
  import opened JsString
  import opened Normalize
  import opened Listing
  import opened Favorites
  import opened Filters

  class RecipeFinder {
    /** `state.recipes`: the fetched results, in display order. */
    var recipes: seq<Recipe>
    /** `state.favorites` */
    var favorites: seq<Recipe>
    /** `state.searchQuery`: the last query started from the search box. */
    var searchQuery: string
    /** `state.currentPage`: how many pages of results are revealed. */
    var currentPage: nat
    /** `state.filters` */
    var filters: Filters
    /** The filter chips of the page, with their data attributes. */
    const chips: seq<Chip>
    /** Whether each chip has the `active` class. */
    const active: array<bool>

    /**
     * One `active` flag per chip; with well-formed chips, the active chips
     * and the filter record agree.
     */
    ghost predicate Valid()
      reads this, active
    {
      && active.Length == |chips|
      && (WellFormed(chips) ==> Consistent(chips, active[..], filters))
    }

    /**
     * The initial state: no results, page 1, every filter null, no chip
     * active, and the favourites read from storage (`stored`, which is empty
     * when storage holds nothing).
     */
    constructor (stored: seq<Recipe>, pageChips: seq<Chip>)
      ensures Valid() && fresh(active)
      ensures recipes == [] && favorites == stored && currentPage == 1 && filters == NoFilters
      ensures searchQuery == ""
      ensures chips == pageChips && forall k :: 0 <= k < active.Length ==> !active[k]
    {
      recipes := [];
      searchQuery := "";
      favorites := stored;
      currentPage := 1;
      filters := NoFilters;
      chips := pageChips;
      active := new bool[|pageChips|](_ => false);
    }

    /** What `displayRecipes` shows for the current state. */
    function View(): Panel<Recipe>
      reads this
    {
      Display(recipes, currentPage)
    }

    /**
     * The state part of `handleSearch`: a blank query does nothing; otherwise
     * the trimmed query is recorded and the page and the results are reset
     * before the search request goes out, so the grid shows the empty state
     * until meals arrive.
     */
    method NewSearch(input: string) returns (started: bool)
      requires Valid()
      modifies this`searchQuery, this`currentPage, this`recipes
      ensures Valid()
      ensures started <==> Trim(input) != ""
      ensures started ==> searchQuery == Trim(input) && currentPage == 1 && recipes == [] && View().EmptyState?
      ensures !started ==> searchQuery == old(searchQuery) && currentPage == old(currentPage) && recipes == old(recipes)
      ensures favorites == old(favorites) && filters == old(filters)
    {
      var query := Trim(input);
      if query == "" {
        return false;
      }
      searchQuery := query;
      currentPage := 1;
      recipes := [];
      started := true;
    }

    /** `state.recipes = this.transformMealData(meals)`, once a request has returned meals. */
    method ShowMeals(meals: seq<Meal>, draws: seq<Draw>)
      requires Valid() && |draws| == |meals|
      modifies this`recipes
      ensures Valid()
      ensures recipes == TransformMeals(meals, draws)
      ensures forall k :: 0 <= k < |recipes| ==> Coherent(recipes[k])
      ensures favorites == old(favorites) && currentPage == old(currentPage) && filters == old(filters)
    {
      recipes := TransformMeals(meals, draws);
    }

    /** `loadMore`: one more page is revealed and nothing else changes. */
    method LoadMore()
      requires Valid()
      modifies this`currentPage
      ensures Valid()
      ensures currentPage == old(currentPage) + 1
      ensures recipes == old(recipes) && favorites == old(favorites) && filters == old(filters)
      ensures old(View()).Grid? ==> old(View()).shown <= View().shown
    {
      currentPage := currentPage + 1;
      if recipes != [] {
        NextPageExtends(recipes, old(currentPage));
      }
    }

    /**
     * `sortRecipes`: "time" and "calories" sort the results ascending by that
     * field, "rating" shuffles them, and any other choice keeps their order.
     */
    method SortRecipes(sortBy: string)
      requires Valid()
      modifies this`recipes
      ensures Valid()
      ensures sortBy == "time" ==> recipes == SortBy(old(recipes), ByTime)
      ensures sortBy == "calories" ==> recipes == SortBy(old(recipes), ByCalories)
      ensures multiset(recipes) == multiset(old(recipes))
      ensures sortBy != "time" && sortBy != "rating" && sortBy != "calories" ==> recipes == old(recipes)
      ensures favorites == old(favorites) && currentPage == old(currentPage) && filters == old(filters)
    {
      if sortBy == "time" {
        recipes := SortBy(recipes, ByTime);
      } else if sortBy == "rating" {
        // The comparator is random; any arrangement of the same recipes can result.
        var shuffled :| multiset(shuffled) == multiset(recipes);
        recipes := shuffled;
      } else if sortBy == "calories" {
        recipes := SortBy(recipes, ByCalories);
      }
    }

    /** `toggleFavorite`: add the recipe when its id is absent, otherwise remove the first favourite with that id. */
    method ToggleFavorite(recipe: Recipe)
      requires Valid()
      modifies this`favorites
      ensures Valid()
      ensures favorites == Toggled(old(favorites), recipe)
      ensures UniqueIds(old(favorites)) ==> UniqueIds(favorites)
      ensures recipes == old(recipes) && currentPage == old(currentPage) && filters == old(filters)
    {
      var index := FindIndex(favorites, recipe.id);
      if index == -1 {
        favorites := favorites + [recipe];
      } else {
        favorites := favorites[..index] + favorites[index + 1..];
      }
      if UniqueIds(old(favorites)) {
        ToggledIds(old(favorites), recipe);
      }
    }

    /**
     * The filter-state part of `toggleFilterChip`: the chip's `active` class
     * flips; when it becomes active the other chips of its group are
     * deactivated and its group's filter takes the chip's value, otherwise the
     * group's filter becomes null.
     */
    method ToggleFilterChip(i: nat)
      requires Valid() && i < |chips|
      modifies this`filters, active
      ensures Valid()
      ensures active[..] == ActiveAfterToggle(chips, old(active[..]), i)
      ensures filters == FiltersAfterToggle(chips, old(active[..]), old(filters), i)
      ensures recipes == old(recipes) && favorites == old(favorites) && currentPage == old(currentPage)
    {
      ghost var before := active[..];
      assert before[i] == active[i];
      active[i] := !active[i];
      var filterType := GroupOf(chips[i]);
      var filterValue := ValueIn(chips[i], filterType);
      if active[i] {
        for k := 0 to active.Length
          invariant active[i] && filters == old(filters)
          invariant forall m :: 0 <= m < k && m != i ==>
                      active[m] == if InGroup(chips[m], filterType) then false else before[m]
          invariant forall m :: k <= m < active.Length && m != i ==> active[m] == before[m]
        {
          if k != i && InGroup(chips[k], filterType) {
            active[k] := false;
          }
        }
        filters := WithFilter(filters, filterType, filterValue);
      } else {
        filters := WithFilter(filters, filterType, None);
      }
      assert active[..] == ActiveAfterToggle(chips, before, i);
      if WellFormed(chips) {
        ToggleKeepsConsistent(chips, before, old(filters), i);
      }
    }

    /** The first step of `applyFilters`: read the advanced controls, an empty choice meaning null. */
    method ReadAdvancedFilters(time: string, meal: string, difficulty: string)
      requires Valid()
      modifies this`filters
      ensures Valid()
      ensures filters == old(filters).(time := OrNull(time), meal := OrNull(meal), difficulty := OrNull(difficulty))
      ensures recipes == old(recipes) && favorites == old(favorites) && currentPage == old(currentPage)
    {
      filters := filters.(time := OrNull(time), meal := OrNull(meal), difficulty := OrNull(difficulty));
      if WellFormed(chips) {
        AdvancedKeepsConsistent(chips, active[..], old(filters), OrNull(time), OrNull(meal), OrNull(difficulty));
      }
    }

    /** The state part of `clearAllFilters`: every chip inactive and every filter null. */
    method ClearAllFilters()
      requires Valid()
      modifies this`filters, active
      ensures Valid()
      ensures filters == NoFilters && forall k :: 0 <= k < active.Length ==> !active[k]
      ensures recipes == old(recipes) && favorites == old(favorites) && currentPage == old(currentPage)
    {
      for k := 0 to active.Length
        invariant forall m :: 0 <= m < k ==> !active[m]
      {
        active[k] := false;
      }
      filters := NoFilters;
    }
  }
}
