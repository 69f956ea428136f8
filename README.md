# Recipe Finder client core, modelled in Dafny

The recipe client (`recipe-finder/script.js`) is a browser page over TheMealDB.
Most of it is DOM and `fetch` plumbing. Under that sits a small deterministic
core, and this project models that core and proves what it promises:

- **Response normaliser** (`normalize.dfy`). It turns a raw meal record into a
  recipe. A meal is a record of optional strings plus its numbered
  ingredient/measure pairs. The derived parts are the trimmed, non-blank
  ingredient list, the tag list, the one-sentence description, the time
  estimate and the difficulty estimate. `extractIngredients` and
  `extractTags` are methods that push onto a local list, as the source does.
  Each is proved equal to a specification function, and the properties are
  proved about those functions.
- **JavaScript string built-ins** (`jsstring.dfy`). These are truthiness of a
  string-or-null value, `trim`, and `split` with a one-character separator,
  written as functions with their own lemmas: the shape of what `trim`
  keeps, and `split`/`join` round trips.
- **Result list** (`listing.dfy`). This covers the reveal window of
  `displayRecipes` (the first `currentPage * 9` results, plus a load-more
  control shown exactly when results remain hidden) and the ascending sorts
  by time and by calories.
- **Favourites** (`favorites.dfy`). This is the keyed toggle of
  `toggleFavorite` and what it does to the set of favourite ids.
- **Filter state** (`filters.dfy`). This is the filter record and the
  single-select chip groups (diet, cuisine).
- **Application state** (`app.dfy`). The class `RecipeFinder` holds
  `recipes`, `favorites`, `searchQuery`, `currentPage`, `filters` and the chips' `active`
  flags. Its methods change them in place with `modifies` clauses: start a
  search, load results, load more, sort, toggle a favourite, toggle a chip, read the
  advanced filters, clear the filters. Its invariant `Valid()` says that the
  active chips and the filter record agree.

Two facts about the code that the model follows:

- Ids in the favourites list are unique only because `toggleFavorite` keeps
  them so. The list read from storage is taken as it is
  (recipe-finder/script.js:12, 549), so it may hold duplicate ids.
- The empty-state path of `displayRecipes` returns before the grid is
  cleared (recipe-finder/script.js:267-270). The model's `EmptyState` panel
  stands for the empty-state display only.

## Model

| member | source | states |
|---|---|---|
| `JsString.TrimStartShape` | recipe-finder/script.js:223-226 | the first half of `trim` (`TrimStart`) drops only white space from the front, so what is left is a suffix of the input that does not start with a space |
| `JsString.TrimStartDropsLeading` | recipe-finder/script.js:223-226 | the front half of `trim` drops exactly the leading white-space run and no more |
| `JsString.TrimEndShape` | recipe-finder/script.js:223-226 | the second half of `trim` (`TrimEnd`) drops only white space from the back, so what is left is a prefix of the input that does not end with a space |
| `JsString.LeadingSpaces` | recipe-finder/script.js:223-226 | the length of the leading white-space run: everything before it is a space and the character after it is not |
| `JsString.TrimShape` | recipe-finder/script.js:223-226 | `trim` keeps the contiguous part that starts right after the leading spaces and is followed only by spaces |
| `JsString.TrimEdges` | recipe-finder/script.js:223-226 | a trimmed string neither starts nor ends with a space, and it is empty exactly when the input is blank (the `ingredient.trim()` test) |
| `JsString.Split` | recipe-finder/script.js:238 | `split(',')` gives one piece more than there are separators, empty pieces included, and no piece contains the separator |
| `JsString.JoinSplit` | recipe-finder/script.js:238 | joining the pieces of a split with the separator gives back the original string |
| `JsString.SplitJoin` | recipe-finder/script.js:238 | splitting the join of separator-free pieces gives back the pieces |
| `JsString.SplitPrefix` | recipe-finder/script.js:238 | a separator-free string is one piece, and a separator after it starts the next piece |
| `JsString.IndexOf` | recipe-finder/script.js:245 | the position of the first `.`, or the length when there is none: nothing before it is a `.` |
| `JsString.SplitFirst` | recipe-finder/script.js:245 | `split('.')[0]` is everything before the first `.` |
| `JsString.CountAppend` | recipe-finder/script.js:245 | occurrence counts add up over a concatenation |
| `JsString.CountAbsent` | recipe-finder/script.js:245 | a string without `.` has no occurrence of it |
| `Normalize.IngredientsUpTo` | recipe-finder/script.js:218-230 | after the loop has looked at pairs 1..n, it has pushed at most n entries |
| `Normalize.ExtractIngredients` | recipe-finder/script.js:217-231 | the loop over pairs 1..20 returns exactly the ingredient list `Ingredients(meal)` |
| `Normalize.KeptSlotsShape` | recipe-finder/script.js:219-223 | the kept pair numbers are strictly increasing and lie in 1..n; each one names a non-blank ingredient, and every non-blank pair is among them |
| `Normalize.IngredientsFromKeptSlots` | recipe-finder/script.js:217-231 | there is one entry per kept pair, in pair order. Entry k holds the trimmed ingredient of the k-th kept pair and that pair's trimmed measure, or "" when the measure is missing |
| `Normalize.IngredientEntriesTrimmed` | recipe-finder/script.js:219-228 | there are at most 20 entries, and every entry's ingredient is non-empty and neither starts nor ends with white space |
| `Normalize.TrimAllTrimmed` | recipe-finder/script.js:238 | after `map(tag => tag.trim())` there is one tag per piece; each is empty or neither starts nor ends with white space, and it holds only characters of its own piece, so no tag contains a `,` |
| `Normalize.ExtractTags` | recipe-finder/script.js:233-241 | the pushes of `extractTags` return exactly the tag list `Tags(meal)` |
| `Normalize.TagsShape` | recipe-finder/script.js:233-241 | the tags are the category if present, then the area if present, then every comma-separated piece of `strTags`, trimmed and in order. Their number is (category?1:0) + (area?1:0) + (commas + 1 if tags are present). The pieces join back to `strTags` |
| `Normalize.ShortDescription` | recipe-finder/script.js:243-246 | the description is the instructions up to and excluding the first `.`, followed by `.`. It always ends in `.`, contains exactly one `.`, and is "." when the instructions are missing |
| `Normalize.EstimateCookingTime` | recipe-finder/script.js:248-254 | the if-chain over 500/1000/1500 gives one of 15, 30, 45, 60, and equals the closed form `TimeFor`: 15 × (1 + min(⌊length/500⌋, 3)). Missing instructions count as length 0 |
| `Normalize.CookingTimeMonotone` | recipe-finder/script.js:248-254 | longer instructions never give a smaller estimate |
| `Normalize.DifficultyFor` | recipe-finder/script.js:256-261 | the label is 'easy' exactly below 5, 'medium' exactly from 5 to 9, 'hard' exactly from 10 on |
| `Normalize.EstimateDifficulty` | recipe-finder/script.js:256-261 | the difficulty is the rule `DifficultyFor` applied to the number of kept (non-blank) pairs, which equals the ingredient-list length |
| `Normalize.TransformMeal` | recipe-finder/script.js:198-215 | every field comes from the meal or the draw: id, title, image, category, area (as cuisine), instructions and video are copied; description, ingredients, tags, time and difficulty are the derived values; calories and servings are the drawn ones. The recipe is also coherent: its time and difficulty follow the two rules from its own instruction length and ingredient count, it has at most 20 ingredients, and its description is one sentence ending in `.` |
| `Normalize.TransformMeals` | recipe-finder/script.js:198-215 | one recipe per meal, in the meals' order: recipe k is `TransformMeal` of meal k and draw k, so it is coherent and carries meal k's id |
| `Listing.Display` | recipe-finder/script.js:264-285 | an empty list gives the empty state. Otherwise the grid shows a prefix of the results: all of them, or exactly `page*9`, whichever is fewer. The load-more control is shown exactly when `|recipes| > page*9`, which is exactly when some results stay hidden |
| `Listing.NextPageExtends` | recipe-finder/script.js:519-522 | with one more page, the old grid stays a prefix. Without the load-more control nothing changes; with it, min(remaining, 9) more results appear |
| `Listing.InsertBy` | recipe-finder/script.js:501 | inserting adds exactly that recipe: the result holds the old elements and the new one, one more than before |
| `Listing.InsertByFrom` | recipe-finder/script.js:501 | every element after an insertion is the inserted recipe or one of the old ones |
| `Listing.ConsSorted` | recipe-finder/script.js:501 | putting a recipe whose key is not larger than any other in front of an ascending list keeps it ascending |
| `Listing.InsertBySorted` | recipe-finder/script.js:501 | inserting into a list that is ascending by the key keeps it ascending |
| `Listing.SortBy` | recipe-finder/script.js:500-509 | `sort((a, b) => a.key - b.key)` gives a permutation of the results that is non-decreasing in time (or calories) |
| `Listing.SortBySorted` | recipe-finder/script.js:500-509 | sorting an already ascending list leaves it unchanged |
| `Favorites.FindIndex` | recipe-finder/script.js:526 | `findIndex` gives -1 exactly when no favourite has the id, and otherwise the first position that has it |
| `Favorites.Toggled` | recipe-finder/script.js:525-534 | if the id is absent, the recipe is appended and the old entries stay. Otherwise the first entry with the id is removed, the others keep their order, and the length drops by one |
| `Favorites.RemoveAtIds` | recipe-finder/script.js:532 | with unique ids, `splice(index, 1)` removes exactly that entry's id and keeps the ids unique |
| `Favorites.ToggledIds` | recipe-finder/script.js:525-534 | with unique ids, a toggle keeps them unique: it adds the recipe's id when it was absent and removes it when it was present |
| `Favorites.ToggleTwiceAbsent` | recipe-finder/script.js:525-534 | toggling a non-favourite twice gives back exactly the original list |
| `Favorites.ToggleTwiceIds` | recipe-finder/script.js:525-534 | with unique ids, toggling the same recipe twice restores the set of favourite ids |
| `Favorites.DuplicateIdsDoubleToggle` | recipe-finder/script.js:525-534 | without unique ids the round trip fails: from two favourites with one id, two toggles leave none |
| `Filters.WithFilter` | recipe-finder/script.js:424-426 | `filters[filterType] = v` sets that field only |
| `Filters.ToggleKeepsConsistent` | recipe-finder/script.js:410-427 | with chips that each belong to one group, a chip click keeps at most one active chip per group. Each group's filter holds the value of its active chip, or null when none is active |
| `Filters.AdvancedKeepsConsistent` | recipe-finder/script.js:434-436 | reading the time, meal and difficulty controls does not disturb the chip groups |
| `App.RecipeFinder.constructor` | recipe-finder/script.js:8-22 | the initial state has no results, an empty search query, page 1 and every filter null. No chip is active, which is an assumption about the page markup rather than part of script.js. The favourites are what storage held (`loadFavorites`) |
| `App.RecipeFinder.NewSearch` | recipe-finder/script.js:146-152 | a blank query (after `trim`) changes nothing; otherwise the trimmed query is recorded, the page goes back to 1 and the results to empty, so the display is the empty state until meals arrive; favourites and filters are untouched and `Valid()` is kept |
| `App.RecipeFinder.ShowMeals` | recipe-finder/script.js:166 | the results become the normalised meals, each coherent; favourites, page and filters are untouched and `Valid()` is kept |
| `App.RecipeFinder.LoadMore` | recipe-finder/script.js:519-522 | the page goes up by exactly one, nothing else in the state changes, the shown grid only grows, and `Valid()` is kept |
| `App.RecipeFinder.SortRecipes` | recipe-finder/script.js:496-513 | "time" and "calories" give the ascending sort. Every choice gives a permutation; "rating" gives an arbitrary one. Any other value keeps the order. The page, favourites and filters are untouched and `Valid()` is kept |
| `App.RecipeFinder.ToggleFavorite` | recipe-finder/script.js:525-534 | the favourites become the toggled list and stay id-unique when they were; nothing else changes and `Valid()` is kept |
| `App.RecipeFinder.ToggleFilterChip` | recipe-finder/script.js:410-427 | the clicked chip flips. When it becomes active, its group's other chips are deactivated and the group's filter takes its value; otherwise that filter becomes null. The invariant is kept |
| `App.RecipeFinder.ReadAdvancedFilters` | recipe-finder/script.js:434-436 | time, meal and difficulty take the controls' values, with an empty choice meaning null; the invariant is kept |
| `App.RecipeFinder.ClearAllFilters` | recipe-finder/script.js:469-485 | every chip becomes inactive and every filter null; results, favourites and page are untouched |

## Left out

- Network I/O is left out. That covers the `fetch` calls of `searchRecipes`, `loadPopularRecipes` and `applyFilters`, the `Promise.all` fan-out, the cap of 9 detail lookups, and the unguarded race between overlapping requests. `ShowMeals` models only the state assignment made once meals have arrived.
- `retrySearch` and `switchView`, and the field `currentView`, only choose which request or view comes next. `loading` is never written after its initial value. The request that `handleSearch` sends is network I/O; its state part (`NewSearch`) is modelled.
- The chips' starting `active` classes come from the page's markup, which is not in script.js. The constructor assumes that every chip starts inactive.
- All DOM work is left out: `cacheDom`, `bindEvents`, `createRecipeCard`, `showRecipeDetail`, `closeModal`, `displayFavorites`, `updateFavoritesCount`, the `show*`/`hideAllStates` panels, `showNotification` and its timers, and the scroll handler. They are presentation. The chips' `active` classes are kept, because the filter logic reads them.
- `localStorage` with `JSON.stringify`/`JSON.parse` in `saveFavorites`/`loadFavorites` is a browser API. The constructor takes the stored list as a parameter, and the serialisation round trip is not modelled.
- `Math.random` is left out. The calorie and serving counts are parameters (`Draw`). The "rating" sort is any permutation of the results. The nutrition numbers of the detail view are not modelled.
- Splitting instructions on `\r\n` for display, and the HTML templates, are presentation only.
- Strings are sequences of Unicode scalar values. JavaScript's `length` counts UTF-16 code units, so the two differ for characters outside the Basic Multilingual Plane. `EstimateCookingTime` uses the model's length.
- Raw record fields are strings or null. Other JSON values (numbers, objects) in those fields are not modelled.
- Listing.SortBy: proved sorted and a permutation. The stability that `Array.prototype.sort` guarantees is not stated.
- Filters.ToggleKeepsConsistent: assumes every chip carries exactly one of `data-diet`/`data-cuisine`. A chip with both or neither can break single-selection.
- Favorites.ToggleTwiceIds: needs unique ids. A stored list with duplicate ids is not repaired by the source; `DuplicateIdsDoubleToggle` shows what then goes wrong.
- The advanced filters (time, meal type, difficulty) are stored, but their values never reach a query. Setting one, or toggling a chip, calls `applyFilters`. Without a cuisine filter that re-runs the current search or the random listing (recipe-finder/script.js:462-466), and with one it fetches that cuisine's meals. When meals arrive, `state.recipes` is replaced (`ShowMeals`). When the response has no meals or the request fails, the old results stay in `state.recipes` while the empty or error panel shows (recipe-finder/script.js:169-174, 192-194, 456-461), and the next sort or load-more displays them again; in the model `ShowMeals` is simply not called on those paths.
