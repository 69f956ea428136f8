/**
 * The favourites list of the recipe client, keyed by recipe id
 * (`toggleFavorite` in recipe-finder/script.js).
 */
module Favorites {
  import opened JsString
  import opened Normalize

  /** No favourite carries `id`. */
  predicate Absent(favs: seq<Recipe>, id: Option<string>) {
    forall k :: 0 <= k < |favs| ==> favs[k].id != id
  }

  /** `i` is the first position of a favourite carrying `id`. */
  predicate FirstWithId(favs: seq<Recipe>, id: Option<string>, i: int) {
    0 <= i < |favs| && favs[i].id == id && Absent(favs[..i], id)
  }

  /** `favs.findIndex(fav => fav.id === id)` */
  function FindIndex(favs: seq<Recipe>, id: Option<string>): (i: int)
    ensures i == -1 <==> Absent(favs, id)
    ensures i != -1 ==> FirstWithId(favs, id, i)
  {
    if favs == [] then -1
    else if favs[0].id == id then 0
    else
      var j := FindIndex(favs[1..], id);
      if j == -1 then -1
      else
        assert favs[..j + 1] == [favs[0]] + favs[1..][..j];
        j + 1
  }

  /**
   * `toggleFavorite(recipe)`: with no favourite carrying the recipe's id the
   * recipe is appended; otherwise the first favourite carrying it is removed
   * and the others keep their order.
   */
  function Toggled(favs: seq<Recipe>, recipe: Recipe): (r: seq<Recipe>)
    ensures Absent(favs, recipe.id) ==> r == favs + [recipe]
    ensures !Absent(favs, recipe.id) ==>
              exists i :: FirstWithId(favs, recipe.id, i) && r == favs[..i] + favs[i + 1..]
    ensures |r| == if Absent(favs, recipe.id) then |favs| + 1 else |favs| - 1
  {
    var index := FindIndex(favs, recipe.id);
    if index == -1 then favs + [recipe]
    else favs[..index] + favs[index + 1..]
  }

  /** The ids in the list. */
  function Ids(favs: seq<Recipe>): set<Option<string>> {
    set k | 0 <= k < |favs| :: favs[k].id
  }

  /** No two favourites carry the same id. */
  predicate UniqueIds(favs: seq<Recipe>) {
    forall i, j :: 0 <= i < j < |favs| ==> favs[i].id != favs[j].id
  }

  /** Removing the entry at `i` from a list with unique ids removes exactly its id. */
  lemma RemoveAtIds(favs: seq<Recipe>, i: nat)
    requires UniqueIds(favs) && i < |favs|
    ensures var r := favs[..i] + favs[i + 1..];
            UniqueIds(r) && Ids(r) == Ids(favs) - {favs[i].id}
  {
    var r := favs[..i] + favs[i + 1..];
    assert forall k :: 0 <= k < |r| ==> r[k] == favs[if k < i then k else k + 1];
    forall x | x in Ids(favs) - {favs[i].id}
      ensures x in Ids(r)
    {
      var k :| 0 <= k < |favs| && favs[k].id == x;
      assert r[if k < i then k else k - 1].id == x;
    }
  }

  /**
   * Toggling keeps ids unique and flips the membership of the recipe's id:
   * it is added when it was absent and dropped when it was present.
   */
  lemma ToggledIds(favs: seq<Recipe>, recipe: Recipe)
    requires UniqueIds(favs)
    ensures UniqueIds(Toggled(favs, recipe))
    ensures recipe.id in Ids(favs) ==> Ids(Toggled(favs, recipe)) == Ids(favs) - {recipe.id}
    ensures recipe.id !in Ids(favs) ==> Ids(Toggled(favs, recipe)) == Ids(favs) + {recipe.id}
  {
    var r := Toggled(favs, recipe);
    if Absent(favs, recipe.id) {
      assert recipe.id !in Ids(favs);
      assert r[|favs|] == recipe;
      assert forall k :: 0 <= k < |favs| ==> r[k] == favs[k];
    } else {
      var i := FindIndex(favs, recipe.id);
      RemoveAtIds(favs, i);
    }
  }

  /** Toggling a recipe that is not a favourite, twice, gives back exactly the same list. */
  lemma ToggleTwiceAbsent(favs: seq<Recipe>, recipe: Recipe)
    requires Absent(favs, recipe.id)
    ensures Toggled(Toggled(favs, recipe), recipe) == favs
  {
    var once := favs + [recipe];
    assert once[|favs|].id == recipe.id;
    assert once[..|favs|] == favs;
  }

  /**
   * Toggling the same recipe twice restores which ids are favourites, provided
   * ids are unique (which toggling preserves).
   */
  lemma ToggleTwiceIds(favs: seq<Recipe>, recipe: Recipe)
    requires UniqueIds(favs)
    ensures Ids(Toggled(Toggled(favs, recipe), recipe)) == Ids(favs)
  {
    ToggledIds(favs, recipe);
    ToggledIds(Toggled(favs, recipe), recipe);
  }

  /** Without unique ids a double toggle can lose an id: two favourites share id "a". */
  lemma DuplicateIdsDoubleToggle(r: Recipe)
    requires r.id == Some("a")
    ensures var favs := [r, r];
            Toggled(Toggled(favs, r), r) == [] && Ids(favs) == {Some("a")}
  {
    var favs := [r, r];
    assert FindIndex(favs, r.id) == 0;
    assert favs[..0] + favs[1..] == [r];
    assert FindIndex([r], r.id) == 0;
    assert Ids(favs) == {Some("a")} by {
      assert favs[0].id == Some("a");
    }
  }
}
