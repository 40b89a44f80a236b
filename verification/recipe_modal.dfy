/** The recipe detail modal: which ingredients the user is missing, the text
    copied for them, the ingredient list shown for the chosen serving count,
    the favourite toggle, and "add to today's meal plan".

    The modal compares ingredients loosely: an ingredient is one the user has
    when, lower-cased, its name contains one of the user's ingredients or one
    of them contains its name. This differs from the exact token comparison of
    the search score. */
module RecipeModal {
  import opened Common
  import opened Text
  import opened Records
  import opened Detail
  import opened FavoriteList
  import opened Planner

  /** `a.toLowerCase().includes(b.toLowerCase()) || b.toLowerCase().includes(a.toLowerCase())`. */
  predicate Related(a: string, b: string) {
    Contains(Lower(a), Lower(b)) || Contains(Lower(b), Lower(a))
  }

  /** `userIngredients.some(userIng => Related(name, userIng))`, walked in list
      order. */
  function HasIngredient(user: seq<string>, name: string): (b: bool)
    ensures b <==> exists i :: 0 <= i < |user| && Related(name, user[i])
    decreases |user|
  {
    if |user| == 0 then false
    else if Related(name, user[0]) then true
    else
      assert forall i :: 1 <= i < |user| ==> user[i] == user[1..][i - 1];
      HasIngredient(user[1..], name)
  }

  /** `scaledIngredients.filter(ing => !HasIngredient(...))`. */
  function Missing(user: seq<string>, ingredients: seq<Ingredient>): (r: seq<Ingredient>)
    ensures |r| <= |ingredients|
    ensures forall x :: x in r <==> x in ingredients && !HasIngredient(user, x.name)
    decreases |ingredients|
  {
    if |ingredients| == 0 then []
    else
      (if HasIngredient(user, ingredients[0].name) then [] else [ingredients[0]])
      + Missing(user, ingredients[1..])
  }

  /** The filter keeps order: it distributes over concatenation, so the
      missing list is the subsequence of the ingredients it keeps. */
  lemma {:induction false} MissingAppend(user: seq<string>, a: seq<Ingredient>, b: seq<Ingredient>)
    ensures Missing(user, a + b) == Missing(user, a) + Missing(user, b)
    decreases |a|
  {
    if |a| == 0 {
      assert a + b == b;
    } else {
      var x, rest := a[0], a[1..];
      var h := if HasIngredient(user, x.name) then [] else [x];
      MissingAppend(user, rest, b);
      HeadTail(a, b);
      MissingCons(user, x, rest + b);
      MissingCons(user, x, rest);
      AppendAssoc(h, Missing(user, rest), Missing(user, b));
    }
  }

  lemma MissingCons(user: seq<string>, x: Ingredient, rest: seq<Ingredient>)
    ensures Missing(user, [x] + rest) == (if HasIngredient(user, x.name) then [] else [x]) + Missing(user, rest)
  {
    assert ([x] + rest)[1..] == rest;
  }

  /** The green/red marker of each ingredient row: green exactly when the
      ingredient is not among the missing ones. */
  lemma MarkerComplementsMissing(user: seq<string>, ingredients: seq<Ingredient>, i: int)
    requires 0 <= i < |ingredients|
    ensures HasIngredient(user, ingredients[i].name) <==> ingredients[i] !in Missing(user, ingredients)
  {
  }

  /** With no user ingredients everything is missing, in the list's order. */
  lemma {:induction false} NothingOwnedAllMissing(ingredients: seq<Ingredient>)
    ensures Missing([], ingredients) == ingredients
    decreases |ingredients|
  {
    if |ingredients| > 0 {
      NothingOwnedAllMissing(ingredients[1..]);
      assert ingredients == [ingredients[0]] + ingredients[1..];
    }
  }

  /** An empty user ingredient is contained in every name, so nothing is
      missing. */
  lemma {:induction false} EmptyEntryMissesNothing(user: seq<string>, ingredients: seq<Ingredient>)
    requires "" in user
    ensures Missing(user, ingredients) == []
    decreases |ingredients|
  {
    if |ingredients| > 0 {
      var k :| 0 <= k < |user| && user[k] == "";
      assert Lower("") == "";
      ContainsEmpty(Lower(ingredients[0].name));
      assert Related(ingredients[0].name, user[k]);
      EmptyEntryMissesNothing(user, ingredients[1..]);
    }
  }

  /** Owning more never makes more ingredients missing. */
  lemma MissingAntitone(user: seq<string>, more: seq<string>, ingredients: seq<Ingredient>)
    ensures forall x :: x in Missing(user + more, ingredients) ==> x in Missing(user, ingredients)
  {
    assert forall j :: 0 <= j < |user| ==> (user + more)[j] == user[j];
  }

  /** The comparison ignores letter case on both sides. */
  lemma RelatedIgnoresCase(a: string, b: string)
    ensures Related(a, b) <==> Related(Lower(a), b)
    ensures Related(a, b) <==> Related(b, a)
  {
    LowerIdempotent(a);
  }

  /** `${ing.original}`: an absent text prints as "undefined". */
  function OriginalText(o: Option<string>): string {
    match o
    case Some(t) => t
    case None => "undefined"
  }

  function BulletLines(xs: seq<Ingredient>): (r: seq<string>)
    ensures |r| == |xs|
    ensures forall i :: 0 <= i < |xs| ==> r[i] == "• " + OriginalText(xs[i].original)
  {
    seq(|xs|, i requires 0 <= i < |xs| => "• " + OriginalText(xs[i].original))
  }

  /** The text "copy missing" puts on the clipboard. */
  function CopyMissingText(user: seq<string>, ingredients: seq<Ingredient>): string {
    Join(BulletLines(Missing(user, ingredients)), "\n")
  }

  /** The copied text has one line per missing ingredient when no original
      text contains a line break. */
  lemma CopyMissingLines(user: seq<string>, ingredients: seq<Ingredient>)
    requires Missing(user, ingredients) != []
    requires forall i :: 0 <= i < |ingredients| ==> '\n' !in OriginalText(ingredients[i].original)
    ensures |Split(CopyMissingText(user, ingredients), '\n')| == |Missing(user, ingredients)|
  {
    var ms := Missing(user, ingredients);
    var lines := BulletLines(ms);
    forall i | 0 <= i < |lines|
      ensures '\n' !in lines[i]
    {
      var k :| 0 <= k < |ingredients| && ingredients[k] == ms[i];
      assert lines[i] == "• " + OriginalText(ingredients[k].original);
    }
    SplitJoin(lines, '\n');
  }

  // ------------------------------------------------------------ servings

  /** The serving count the modal starts from: `recipe.servings || 4`. */
  function InitialServings(recipe: RecipeDetail): (n: int)
    ensures n != 0
  {
    IntOr(recipe.servings, 4)
  }

  /** The ingredient list shown for a serving count. When the count equals the
      recipe's own (strictly: an absent count never does), the recipe's list.
      Otherwise the customisation route's scaled list, or, when that call
      fails, the recipe's list scaled in the browser by `servings /
      recipe.servings`, each entry with a freshly built display text. */
  function ShownIngredients(servings: int, recipe: RecipeDetail, customized: Fetch<seq<Ingredient>>): (r: seq<Ingredient>)
    ensures recipe.servings == Some(servings) ==> r == recipe.ingredients
    ensures recipe.servings != Some(servings) && customized.Fetched? ==> r == customized.data
    ensures recipe.servings != Some(servings) && customized.FetchFailed? ==>
      |r| == |recipe.ingredients| &&
      forall i :: 0 <= i < |r| ==>
        && r[i].id == recipe.ingredients[i].id && r[i].name == recipe.ingredients[i].name
        && r[i].original.Some?
        && r[i] == Detail.ScaleIngredient(recipe.ingredients[i], servings, recipe.servings)
  {
    if recipe.servings == Some(servings) then recipe.ingredients
    else match customized
      case Fetched(xs) => xs
      case FetchFailed => Detail.ScaleAll(recipe.ingredients, servings, recipe.servings)
  }

  /** When the recipe has a nonzero serving count, the list the server scales
      and the list the browser falls back to are the same, so a failed call
      is invisible to the user. */
  lemma ScalingPathsAgree(p: Payload, servings: int)
    requires p.servings.Some? && p.servings.value != 0
    requires p.extendedIngredients.Some?
    requires servings >= 1 && p.servings != Some(servings)
    ensures var server := Detail.Customize(Some(servings), Fetched(Some(p)));
      && server.Success?
      && ShownIngredients(servings, Detail.Transform(p), Fetched(server.body.scaledIngredients))
         == ShownIngredients(servings, Detail.Transform(p), FetchFailed)
  {
  }

  /** Without a serving count the two paths part: the server scales from 4
      servings and prints a number, the browser divides by the missing count
      and prints NaN. */
  lemma ScalingPathsWithoutServings(p: Payload, servings: int, i: int)
    requires p.servings.None? && p.extendedIngredients.Some?
    requires servings >= 1 && 0 <= i < |p.extendedIngredients.value|
    requires p.extendedIngredients.value[i].amount.Some?
    ensures var server := Detail.Customize(Some(servings), Fetched(Some(p)));
      var browser := ShownIngredients(servings, Detail.Transform(p), FetchFailed);
      && server.Success?
      && server.body.scaledIngredients[i].amount.Some?
      && browser[i].amount.None?
      && browser[i].original.value[..3] == "NaN"
  {
  }

  /** On opening, a recipe with a serving count shows its own list without a
      call; one without a count starts at 4 and asks the server to scale. */
  lemma OpeningShortcut(recipe: RecipeDetail, customized: Fetch<seq<Ingredient>>)
    ensures recipe.servings.Some? && recipe.servings.value != 0 ==>
      ShownIngredients(InitialServings(recipe), recipe, customized) == recipe.ingredients
    ensures recipe.servings.None? ==> InitialServings(recipe) == 4 && recipe.servings != Some(InitialServings(recipe))
  {
  }

  // ------------------------------------------------------------ favourites

  /** Whether the modal opens with the heart filled: some favourite's id equals
      `parseInt(recipeId)`. A non-numeric id is NaN, equal to nothing. */
  function OpensAsFavorite(favs: seq<StoredRecipe>, idText: string): (b: bool)
    ensures ParseInt(idText).None? ==> !b
    ensures ParseInt(idText).Some? ==> (b <==> HasId(favs, ParseInt(idText)))
  {
    ParseInt(idText).Some? && HasId(favs, ParseInt(idText))
  }

  /** The entry the modal stores: five fields of the recipe. */
  function ModalEntry(recipe: RecipeDetail): (e: StoredRecipe)
    ensures e.id == recipe.id && e.title == recipe.title && e.image == recipe.image
    ensures e.readyInMinutes == recipe.readyInMinutes && e.servings == recipe.servings
    ensures e.matchPercentage.None? && !e.veryHealthy
  {
    StoredRecipe(recipe.id, recipe.title, recipe.image, recipe.readyInMinutes, recipe.servings, None, false)
  }

  /** `toggleFavorite` of the modal: the new list and the new heart state. */
  function ToggleFavorite(favs: seq<StoredRecipe>, isFavorite: bool, recipe: RecipeDetail): (r: (seq<StoredRecipe>, bool))
    ensures r.1 == !isFavorite
    ensures isFavorite ==> r.0 == RemoveById(favs, recipe.id) && !HasId(r.0, recipe.id)
    ensures !isFavorite ==> r.0 == favs + [ModalEntry(recipe)] && HasId(r.0, recipe.id)
  {
    if isFavorite then (RemoveById(favs, recipe.id), false)
    else (Append(favs, ModalEntry(recipe)), true)
  }

  /** Toggling twice, starting from a recipe that is not a favourite, restores
      the list. */
  lemma ToggleTwice(favs: seq<StoredRecipe>, recipe: RecipeDetail)
    requires !HasId(favs, recipe.id)
    ensures var once := ToggleFavorite(favs, false, recipe);
            ToggleFavorite(once.0, once.1, recipe) == (favs, false)
  {
    AddThenRemove(favs, ModalEntry(recipe));
  }

  // ------------------------------------------------------------ meal plan

  /** The slot entry: id, title and image. */
  function SlotEntry(recipe: RecipeDetail): (e: StoredRecipe)
    ensures e.id == recipe.id && e.title == recipe.title && e.image == recipe.image
    ensures e.readyInMinutes.None? && e.servings.None?
  {
    StoredRecipe(recipe.id, recipe.title, recipe.image, None, None, None, false)
  }

  datatype PlanOutcome = AddedTo(meal: Meal, plan: Plan) | AllSlotsFilled(message: string)

  /** The first meal of the day, in breakfast-lunch-dinner order, whose slot is
      empty. */
  function FirstFree(plan: Plan, today: Day): (m: Option<Meal>)
    ensures m.None? <==> IsFullDay(plan, today)
    ensures m.Some? ==> !Filled(plan, today, m.value)
    ensures m == Some(Lunch) ==> Filled(plan, today, Breakfast)
    ensures m == Some(Dinner) ==> Filled(plan, today, Breakfast) && Filled(plan, today, Lunch)
  {
    if !Filled(plan, today, Breakfast) then Some(Breakfast)
    else if !Filled(plan, today, Lunch) then Some(Lunch)
    else if !Filled(plan, today, Dinner) then Some(Dinner)
    else
      ThreeFilledIsFull(plan, today);
      None
  }

  lemma ThreeFilledIsFull(plan: Plan, d: Day)
    requires Filled(plan, d, Breakfast) && Filled(plan, d, Lunch) && Filled(plan, d, Dinner)
    ensures IsFullDay(plan, d)
  {
    forall m: Meal
      ensures Filled(plan, d, m)
    {
      if m != Breakfast && m != Lunch {
        assert m == Dinner;
      }
    }
  }

  /** `addToMealPlan`: the recipe goes into today's first free slot; a full day
      is reported and nothing is stored. */
  function AddToMealPlan(plan: Plan, today: Day, recipe: RecipeDetail): (r: PlanOutcome)
    ensures r.AllSlotsFilled? <==> IsFullDay(plan, today)
    ensures r.AllSlotsFilled? ==> r.message == "All meal slots are filled for today"
    ensures r.AddedTo? ==>
      && !Filled(plan, today, r.meal)
      && SlotOf(r.plan, today, r.meal) == Some(SlotEntry(recipe))
      && (forall d, m :: (d, m) != (today, r.meal) ==> SlotOf(r.plan, d, m) == SlotOf(plan, d, m))
  {
    match FirstFree(plan, today)
    case None => AllSlotsFilled("All meal slots are filled for today")
    case Some(m) => AddedTo(m, SetSlot(plan, today, m, Some(SlotEntry(recipe))))
  }

  /** Adding to the plan plans exactly one more meal. */
  lemma AddToMealPlanCount(plan: Plan, today: Day, recipe: RecipeDetail)
    requires !IsFullDay(plan, today)
    ensures AddToMealPlan(plan, today, recipe).AddedTo?
    ensures PlannedCount(AddToMealPlan(plan, today, recipe).plan) == PlannedCount(plan) + 1
  {
    var r := AddToMealPlan(plan, today, recipe);
    SlotChangeCount(plan, r.plan, today, r.meal);
  }
}
