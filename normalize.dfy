/**
 * The response normaliser of the recipe client: how one raw TheMealDB meal
 * record becomes a recipe (`transformMealData` and its helpers in
 * recipe-finder/script.js).
 */
module Normalize {
  import opened JsString

  /** Pair number n of a raw record: the fields `strIngredientN` and `strMeasureN`. */
  datatype Slot = Slot(ingredient: Option<string>, measure: Option<string>)

  /**
   * A raw meal record. `slots[n - 1]` holds pair number n; a pair number past
   * the end of `slots` stands for keys the record does not have.
   */
  datatype Meal = Meal(
    idMeal: Option<string>,
    strMeal: Option<string>,
    strMealThumb: Option<string>,
    strCategory: Option<string>,
    strArea: Option<string>,
    strInstructions: Option<string>,
    strTags: Option<string>,
    strYoutube: Option<string>,
    slots: seq<Slot>)

  /** The number of ingredient/measure pairs the normaliser reads. */
  const SlotCount := 20

  /** `meal[`strIngredient${n}`]` together with `meal[`strMeasure${n}`]`. */
  function SlotAt(meal: Meal, n: nat): Slot {
    if 1 <= n <= |meal.slots| then meal.slots[n - 1] else Slot(None, None)
  }

  /** One entry of a recipe's ingredient list. */
  datatype Ingredient = Ingredient(ingredient: string, measure: string)

  /** `ingredient && ingredient.trim()`: the slot names an ingredient that is not blank. */
  predicate Kept(slot: Slot) {
    Truthy(slot.ingredient) && Trim(slot.ingredient.value) != ""
  }

  /** The entry pushed for a kept slot. */
  function EntryOf(slot: Slot): Ingredient
    requires Kept(slot)
  {
    Ingredient(Trim(slot.ingredient.value),
               if Truthy(slot.measure) then Trim(slot.measure.value) else "")
  }

  /** The ingredient list after the loop has looked at pairs 1..n. */
  function IngredientsUpTo(meal: Meal, n: nat): (r: seq<Ingredient>)
    ensures |r| <= n
  {
    if n == 0 then []
    else
      var slot := SlotAt(meal, n);
      IngredientsUpTo(meal, n - 1) + (if Kept(slot) then [EntryOf(slot)] else [])
  }

  /** The ingredient list of a meal: what `extractIngredients` returns. */
  function Ingredients(meal: Meal): seq<Ingredient> {
    IngredientsUpTo(meal, SlotCount)
  }

  /** `extractIngredients`: scan pairs 1..20 and push the trimmed non-blank ones. */
  method ExtractIngredients(meal: Meal) returns (ingredients: seq<Ingredient>)
    ensures ingredients == Ingredients(meal)
  {
    ingredients := [];
    for i := 1 to SlotCount + 1
      invariant ingredients == IngredientsUpTo(meal, i - 1)
    {
      var slot := SlotAt(meal, i);
      if Truthy(slot.ingredient) && Trim(slot.ingredient.value) != "" {
        var measure := if Truthy(slot.measure) then Trim(slot.measure.value) else "";
        ingredients := ingredients + [Ingredient(Trim(slot.ingredient.value), measure)];
      }
    }
  }

  /** The pair numbers among 1..n whose slot is kept, in increasing order. */
  function KeptSlots(meal: Meal, n: nat): seq<nat> {
    if n == 0 then []
    else KeptSlots(meal, n - 1) + (if Kept(SlotAt(meal, n)) then [n] else [])
  }

  /**
   * The kept pair numbers among 1..n are strictly increasing, each names a
   * non-blank ingredient, and every pair that does is among them.
   */
  lemma {:induction false} KeptSlotsShape(meal: Meal, n: nat)
    ensures forall j :: 0 <= j < |KeptSlots(meal, n)| ==>
              1 <= KeptSlots(meal, n)[j] <= n && Kept(SlotAt(meal, KeptSlots(meal, n)[j]))
    ensures forall i, j :: 0 <= i < j < |KeptSlots(meal, n)| ==> KeptSlots(meal, n)[i] < KeptSlots(meal, n)[j]
    ensures forall m :: 1 <= m <= n && Kept(SlotAt(meal, m)) ==> m in KeptSlots(meal, n)
  {
    if n > 0 {
      KeptSlotsShape(meal, n - 1);
      var ks := KeptSlots(meal, n - 1);
      if Kept(SlotAt(meal, n)) {
        var r := ks + [n];
        assert KeptSlots(meal, n) == r;
        assert forall j :: 0 <= j < |ks| ==> r[j] == ks[j];
        assert r[|ks|] == n;
        assert forall m :: m in ks ==> m in r;
      } else {
        assert KeptSlots(meal, n) == ks;
      }
    }
  }

  /**
   * The ingredient list holds one entry per kept pair, in pair order: entry k
   * comes from the k-th kept pair, with its trimmed ingredient and its trimmed
   * measure ("" when the measure is missing).
   */
  lemma {:induction false} IngredientsFromKeptSlots(meal: Meal, n: nat)
    ensures |IngredientsUpTo(meal, n)| == |KeptSlots(meal, n)|
    ensures forall k :: 0 <= k < |IngredientsUpTo(meal, n)| ==>
              Kept(SlotAt(meal, KeptSlots(meal, n)[k])) &&
              IngredientsUpTo(meal, n)[k] == EntryOf(SlotAt(meal, KeptSlots(meal, n)[k]))
  {
    KeptSlotsShape(meal, n);
    if n > 0 {
      IngredientsFromKeptSlots(meal, n - 1);
    }
  }

  /** Every entry is trimmed and names a non-blank ingredient; there are at most 20. */
  lemma IngredientEntriesTrimmed(meal: Meal)
    ensures |Ingredients(meal)| <= SlotCount
    ensures forall k :: 0 <= k < |Ingredients(meal)| ==>
              var e := Ingredients(meal)[k];
              e.ingredient != [] && !IsSpace(e.ingredient[0]) && !IsSpace(e.ingredient[|e.ingredient| - 1])
  {
    IngredientsFromKeptSlots(meal, SlotCount);
    forall k | 0 <= k < |Ingredients(meal)|
      ensures var e := Ingredients(meal)[k];
              e.ingredient != [] && !IsSpace(e.ingredient[0]) && !IsSpace(e.ingredient[|e.ingredient| - 1])
    {
      var slot := SlotAt(meal, KeptSlots(meal, SlotCount)[k]);
      TrimEdges(slot.ingredient.value);
    }
  }

  /** `extractTags`: category, then area, then the trimmed comma-separated pieces of `strTags`. */
  function Tags(meal: Meal): seq<string> {
    (if Truthy(meal.strCategory) then [meal.strCategory.value] else [])
    + (if Truthy(meal.strArea) then [meal.strArea.value] else [])
    + (if Truthy(meal.strTags) then TrimAll(Split(meal.strTags.value, ',')) else [])
  }

  /** `pieces.map(tag => tag.trim())` */
  function TrimAll(pieces: seq<string>): seq<string> {
    seq(|pieces|, k requires 0 <= k < |pieces| => Trim(pieces[k]))
  }

  /**
   * Each trimmed piece is empty or neither starts nor ends with white space,
   * and it holds only characters of its piece (so a piece without `,` stays
   * without one).
   */
  lemma TrimAllTrimmed(pieces: seq<string>)
    ensures |TrimAll(pieces)| == |pieces|
    ensures forall k :: 0 <= k < |pieces| ==>
              var t := TrimAll(pieces)[k];
              t == [] || (!IsSpace(t[0]) && !IsSpace(t[|t| - 1]))
    ensures forall k, c :: 0 <= k < |pieces| && c in TrimAll(pieces)[k] ==> c in pieces[k]
  {
    forall k | 0 <= k < |pieces|
      ensures var t := TrimAll(pieces)[k];
              t == [] || (!IsSpace(t[0]) && !IsSpace(t[|t| - 1]))
      ensures forall c :: c in TrimAll(pieces)[k] ==> c in pieces[k]
    {
      var p := pieces[k];
      TrimEdges(p);
      TrimShape(p);
      var a := LeadingSpaces(p);
      var t := Trim(p);
      forall c | c in t
        ensures c in p
      {
        var j :| 0 <= j < |t| && t[j] == c;
        assert p[a + j] == c;
      }
    }
  }

  /** `extractTags`, as the source writes it: push category, push area, push the pieces. */
  method ExtractTags(meal: Meal) returns (tags: seq<string>)
    ensures tags == Tags(meal)
  {
    tags := [];
    if Truthy(meal.strCategory) {
      tags := tags + [meal.strCategory.value];
    }
    if Truthy(meal.strArea) {
      tags := tags + [meal.strArea.value];
    }
    if Truthy(meal.strTags) {
      var pieces := Split(meal.strTags.value, ',');
      tags := tags + TrimAll(pieces);
    }
  }

  /**
   * The tag list is the category if present, then the area if present, then
   * one trimmed entry for every comma-separated piece of `strTags` (empty
   * pieces kept), so its length is fixed by the number of commas.
   */
  lemma TagsShape(meal: Meal)
    ensures var c := if Truthy(meal.strCategory) then 1 else 0;
            var a := if Truthy(meal.strArea) then 1 else 0;
            var tags := Tags(meal);
            && |tags| == c + a + (if Truthy(meal.strTags) then Count(meal.strTags.value, ',') + 1 else 0)
            && (c == 1 ==> tags[0] == meal.strCategory.value)
            && (a == 1 ==> tags[c] == meal.strArea.value)
            && (Truthy(meal.strTags) ==>
                  var pieces := Split(meal.strTags.value, ',');
                  && Join(pieces, ',') == meal.strTags.value
                  && forall k :: 0 <= k < |pieces| ==> ',' !in pieces[k] && tags[c + a + k] == Trim(pieces[k]))
  {
    if Truthy(meal.strTags) {
      JoinSplit(meal.strTags.value, ',');
    }
  }

  /**
   * `getShortDescription`: the instructions up to (not including) the first
   * `.`, or all of them when there is none, followed by `.`; missing
   * instructions give ".".
   */
  function ShortDescription(meal: Meal): (d: string)
    ensures var s := OrEmpty(meal.strInstructions); d == s[..IndexOf(s, '.')] + "."
    ensures |d| >= 1 && d[|d| - 1] == '.'
    ensures Count(d, '.') == 1
    ensures !Truthy(meal.strInstructions) ==> d == "."
  {
    var s := OrEmpty(meal.strInstructions);
    SplitFirst(s, '.');
    var first := Split(s, '.')[0];
    CountAppend(first, ".", '.');
    CountAbsent(first, '.');
    first + "."
  }

  /**
   * `estimateCookingTime`: 15 minutes per started 500 characters of
   * instructions, at most 60; missing instructions count as length 0.
   */
  function EstimateCookingTime(meal: Meal): (minutes: nat)
    ensures minutes in {15, 30, 45, 60}
    ensures minutes == TimeFor(|OrEmpty(meal.strInstructions)|)
  {
    var instructionLength := |OrEmpty(meal.strInstructions)|;
    if instructionLength < 500 then 15
    else if instructionLength < 1000 then 30
    else if instructionLength < 1500 then 45
    else 60
  }

  /** The time rule in closed form: 15 minutes per started 500 characters, at most 4 steps. */
  function TimeFor(n: nat): nat {
    15 * (1 + (if n / 500 < 3 then n / 500 else 3))
  }

  /** Longer instructions never give a shorter estimate. */
  lemma CookingTimeMonotone(a: Meal, b: Meal)
    requires |OrEmpty(a.strInstructions)| <= |OrEmpty(b.strInstructions)|
    ensures EstimateCookingTime(a) <= EstimateCookingTime(b)
  {
  }

  datatype Difficulty = Easy | Medium | Hard {
    /** The label the source stores: 'easy', 'medium' or 'hard'. */
    function Label(): string {
      match this
      case Easy => "easy"
      case Medium => "medium"
      case Hard => "hard"
    }
  }

  /** The difficulty rule: 'easy' below 5 ingredients, 'medium' from 5 to 9, 'hard' from 10 on. */
  function DifficultyFor(count: nat): (d: Difficulty)
    ensures d.Label() == "easy" <==> count < 5
    ensures d.Label() == "medium" <==> 5 <= count < 10
    ensures d.Label() == "hard" <==> 10 <= count
  {
    if count < 5 then Easy
    else if count < 10 then Medium
    else Hard
  }

  /**
   * `estimateDifficulty`: the difficulty rule applied to the number of
   * non-blank ingredient pairs, which is the length of the ingredient list.
   */
  function EstimateDifficulty(meal: Meal): (d: Difficulty)
    ensures d == DifficultyFor(|KeptSlots(meal, SlotCount)|)
    ensures d == DifficultyFor(|Ingredients(meal)|)
  {
    IngredientsFromKeptSlots(meal, SlotCount);
    var ingredientCount := |Ingredients(meal)|;
    DifficultyFor(ingredientCount)
  }

  /** A normalised recipe. */
  datatype Recipe = Recipe(
    id: Option<string>,
    title: Option<string>,
    image: Option<string>,
    category: Option<string>,
    cuisine: Option<string>,
    description: string,
    instructions: Option<string>,
    ingredients: seq<Ingredient>,
    tags: seq<string>,
    video: Option<string>,
    time: nat,
    difficulty: Difficulty,
    calories: int,
    servings: int)

  /**
   * What holds of every recipe the normaliser builds: the time and the
   * difficulty are the fixed step functions of the recipe's own instruction
   * length and ingredient count, there are at most 20 ingredients, and the
   * description is one sentence ending in `.`.
   */
  ghost predicate Coherent(r: Recipe) {
    && r.time == TimeFor(|OrEmpty(r.instructions)|)
    && r.difficulty == DifficultyFor(|r.ingredients|)
    && |r.ingredients| <= SlotCount
    && |r.description| >= 1 && r.description[|r.description| - 1] == '.'
    && Count(r.description, '.') == 1
  }

  /** The random placeholder values `transformMealData` draws for one meal. */
  datatype Draw = Draw(calories: int, servings: int)

  /** One element of `transformMealData`; the mock calorie and serving counts are given. */
  function TransformMeal(meal: Meal, draw: Draw): (r: Recipe)
    ensures Coherent(r)
    ensures r.id == meal.idMeal && r.title == meal.strMeal && r.image == meal.strMealThumb
    ensures r.category == meal.strCategory && r.cuisine == meal.strArea && r.video == meal.strYoutube
    ensures r.instructions == meal.strInstructions && r.description == ShortDescription(meal)
    ensures r.ingredients == Ingredients(meal) && r.tags == Tags(meal)
    ensures r.time == EstimateCookingTime(meal) && r.difficulty == EstimateDifficulty(meal)
    ensures r.calories == draw.calories && r.servings == draw.servings
  {
    Recipe(
      meal.idMeal, meal.strMeal, meal.strMealThumb, meal.strCategory, meal.strArea,
      ShortDescription(meal), meal.strInstructions, Ingredients(meal), Tags(meal),
      meal.strYoutube, EstimateCookingTime(meal), EstimateDifficulty(meal),
      draw.calories, draw.servings)
  }

  /** `transformMealData`: one coherent recipe per meal, in order, each built from its meal and its draw. */
  function TransformMeals(meals: seq<Meal>, draws: seq<Draw>): (rs: seq<Recipe>)
    requires |draws| == |meals|
    ensures |rs| == |meals|
    ensures forall k :: 0 <= k < |rs| ==> rs[k] == TransformMeal(meals[k], draws[k])
    ensures forall k :: 0 <= k < |rs| ==> Coherent(rs[k]) && rs[k].id == meals[k].idMeal
  {
    seq(|meals|, k requires 0 <= k < |meals| => TransformMeal(meals[k], draws[k]))
  }
}
