/** A recipe card of the dashboard: its heart state and toggle, the colour of
    the match bar, and the percentage shown. The card shows a list record of
    the search route (or a sample recipe of the same shape). */
module RecipeCard {
  import opened Common
  import opened Records
  import opened FavoriteList

  /** The heart state when the card appears: some favourite has the card's id. */
  function InitiallyFavorite(favs: seq<StoredRecipe>, recipe: Summary): (b: bool)
    ensures b <==> exists i :: 0 <= i < |favs| && favs[i].id == recipe.id
  {
    HasId(favs, recipe.id)
  }

  /** The entry the card stores: six fields of the record. */
  function CardEntry(recipe: Summary): (e: StoredRecipe)
    ensures e.id == recipe.id && e.title == recipe.title && e.image == recipe.image
    ensures e.readyInMinutes == Some(recipe.readyInMinutes) && e.servings == Some(recipe.servings)
    ensures e.matchPercentage == recipe.matchPercentage
    ensures !e.veryHealthy
  {
    StoredRecipe(recipe.id, recipe.title, recipe.image, Some(recipe.readyInMinutes),
                 Some(recipe.servings), recipe.matchPercentage, false)
  }

  /** `toggleFavorite` of the card: the new list and the new heart state. */
  function ToggleFavorite(favs: seq<StoredRecipe>, isFavorite: bool, recipe: Summary): (r: (seq<StoredRecipe>, bool))
    ensures r.1 == !isFavorite
    ensures isFavorite ==> r.0 == RemoveById(favs, recipe.id) && !HasId(r.0, recipe.id)
    ensures !isFavorite ==> r.0 == favs + [CardEntry(recipe)] && HasId(r.0, recipe.id)
  {
    if isFavorite then (RemoveById(favs, recipe.id), false)
    else (Append(favs, CardEntry(recipe)), true)
  }

  /** Starting from the initial heart state, toggling twice restores the list
      when the recipe was not a favourite. */
  lemma ToggleTwiceRestores(favs: seq<StoredRecipe>, recipe: Summary)
    requires !InitiallyFavorite(favs, recipe)
    ensures var once := ToggleFavorite(favs, InitiallyFavorite(favs, recipe), recipe);
            ToggleFavorite(once.0, once.1, recipe) == (favs, false)
  {
    AddThenRemove(favs, CardEntry(recipe));
  }

  /** A card whose recipe is already a favourite is removed by the toggle, and
      every entry with its id goes. */
  lemma ToggleRemovesAll(favs: seq<StoredRecipe>, recipe: Summary)
    requires InitiallyFavorite(favs, recipe)
    ensures var r := ToggleFavorite(favs, true, recipe).0;
            forall x :: x in r <==> x in favs && x.id != recipe.id
  {
  }

  datatype BarColor = Green | Yellow | Orange

  /** The colour bands of the match bar: 80 and above green, 60 to 79 yellow,
      everything else orange. A NaN score compares false and is orange. */
  function MatchColor(score: Option<int>): (c: BarColor)
    ensures c == Green <==> score.Some? && score.value >= 80
    ensures c == Yellow <==> score.Some? && 60 <= score.value < 80
    ensures c == Orange <==> score.None? || score.value < 60
  {
    match score
    case None => Orange
    case Some(s) => if s >= 80 then Green else if s >= 60 then Yellow else Orange
  }

  /** Colours only grow greener as the score grows. */
  lemma MatchColorMonotone(a: int, b: int)
    requires a <= b
    ensures MatchColor(Some(a)) == Green ==> MatchColor(Some(b)) == Green
    ensures MatchColor(Some(a)) == Yellow ==> MatchColor(Some(b)) != Orange
  {
  }

  /** `Math.min(recipe.matchPercentage, 100)`: the bar width and the shown
      percentage. A score the server could not compute reaches the card as
      JSON null, and `Math.min(null, 100)` is 0. */
  function DisplayedMatch(score: Option<int>): (r: int)
    ensures score.None? ==> r == 0
    ensures score.Some? ==> r <= 100 && r <= score.value
    ensures score.Some? ==> (r == score.value <==> score.value <= 100)
  {
    match score
    case None => 0
    case Some(s) => Min(s, 100)
  }

  /** The bar's width and its colour tell the same story: the colour of the
      capped width is the colour of the score itself. */
  lemma DisplayedMatchKeepsColor(score: Option<int>)
    ensures MatchColor(Some(DisplayedMatch(score))) == MatchColor(score)
  {
  }
}
