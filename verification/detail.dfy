/** The recipe detail route (`GET /api/recipes/:id`) and the serving
    customisation route (`POST /api/recipes/:id/customize`).

    The detail route asks the provider for the recipe; when that call fails it
    makes up a mock recipe from the id text. Either way the payload is then
    shaped into the detail record, with defaults for the fields that are
    missing. A provider reply without data makes the shaping throw, which the
    route reports as a 500. */
module Detail {
  import opened Common
  import opened Text
  import opened Records

  const DetailPlaceholderImage := "https://via.placeholder.com/556x370?text=Recipe+Image"
  const DefaultSummary := "A delicious recipe you'll love!"
  const DefaultCredits := "Pradeep's Food Guide"
  const DefaultSourceUrl := "#"

  /** The nutrient list used when a payload has none. */
  const ZeroNutrients := [Nutrient("Calories", 0, "kcal"), Nutrient("Protein", 0, "g"),
                          Nutrient("Carbohydrates", 0, "g"), Nutrient("Fat", 0, "g")]

  /** The recipe the detail route sends. */
  datatype RecipeDetail = RecipeDetail(
    id: Option<int>,
    title: Option<string>,
    image: string,
    readyInMinutes: Option<int>,
    servings: Option<int>,
    summary: string,
    ingredients: seq<Ingredient>,
    instructions: seq<seq<string>>,
    nutrients: seq<Nutrient>,
    diets: seq<string>,
    dishTypes: seq<string>,
    creditsText: string,
    sourceUrl: string)

  /** The two ingredients of the mock recipe. */
  const MockIngredients := [
    Ingredient(Some(1), "ingredient 1", Some("2 cups ingredient 1"), Some("cups"), Some(Decimal(2, 0))),
    Ingredient(Some(2), "ingredient 2", Some("1 tbsp ingredient 2"), Some("tbsp"), Some(Decimal(1, 0)))]

  /** The recipe made up when the provider call fails: numbers and texts
      derived from the id text of the URL, everything else fixed. */
  function MockRecipe(idText: string): (p: Payload)
    ensures p.id == ParseInt(idText)
    ensures p.title == Some("Recipe #" + idText)
    ensures p.image == Some("https://spoonacular.com/recipeImages/" + idText + "-312x231.jpg")
    ensures p.readyInMinutes == Some(30) && p.servings == Some(4)
    ensures p.extendedIngredients.Some? && |p.extendedIngredients.value| == 2
    ensures p.diets == Some(["vegetarian"]) && p.dishTypes == Some(["main course"])
  {
    Payload(
      ParseInt(idText), Some("Recipe #" + idText),
      Some("https://spoonacular.com/recipeImages/" + idText + "-312x231.jpg"),
      Some(30), Some(4), None,
      Some(MockIngredients),
      None, None,
      Some([["Prepare all ingredients", "Mix everything together", "Cook for 20-30 minutes", "Serve and enjoy"]]),
      Some([Nutrient("Calories", 350, "kcal"), Nutrient("Protein", 15, "g"),
            Nutrient("Carbohydrates", 45, "g"), Nutrient("Fat", 12, "g")]),
      NoFlags, Some(["vegetarian"]), Some(["main course"]), Some(DefaultCredits), None)
  }

  /** The detail record of a payload. Id, title, time and servings pass through
      as they are; the texts and lists take their defaults when missing (an
      empty list is kept, an empty text is replaced). */
  function Transform(p: Payload): (d: RecipeDetail)
    ensures d.id == p.id && d.title == p.title
    ensures d.readyInMinutes == p.readyInMinutes && d.servings == p.servings
    ensures d.image != "" && d.summary != "" && d.creditsText != "" && d.sourceUrl != ""
    ensures d.ingredients == p.extendedIngredients.GetOr([])
    ensures d.instructions == p.analyzedInstructions.GetOr([])
    ensures d.nutrients == p.nutrition.GetOr(ZeroNutrients)
    ensures d.diets == p.diets.GetOr([]) && d.dishTypes == p.dishTypes.GetOr([])
    ensures p.image.Some? && p.image.value != "" ==> d.image == p.image.value
    ensures p.image.None? || p.image.value == "" ==> d.image == DetailPlaceholderImage
  {
    RecipeDetail(
      p.id, p.title, TextOr(p.image, DetailPlaceholderImage),
      p.readyInMinutes, p.servings, TextOr(p.summary, DefaultSummary),
      p.extendedIngredients.GetOr([]), p.analyzedInstructions.GetOr([]),
      p.nutrition.GetOr(ZeroNutrients), p.diets.GetOr([]), p.dishTypes.GetOr([]),
      TextOr(p.creditsText, DefaultCredits), TextOr(p.sourceUrl, DefaultSourceUrl))
  }

  /** A detail record read back as a payload, every field present. */
  function AsPayload(d: RecipeDetail): (p: Payload)
    ensures p.id == d.id && p.title == d.title
    ensures p.extendedIngredients == Some(d.ingredients) && p.nutrition == Some(d.nutrients)
  {
    Payload(d.id, d.title, Some(d.image), d.readyInMinutes, d.servings, Some(d.summary),
            Some(d.ingredients), None, None, Some(d.instructions), Some(d.nutrients),
            NoFlags, Some(d.diets), Some(d.dishTypes), Some(d.creditsText), Some(d.sourceUrl))
  }

  /** Shaping is idempotent: a shaped record passes through unchanged. */
  lemma TransformIdempotent(p: Payload)
    ensures Transform(AsPayload(Transform(p))) == Transform(p)
  {
  }

  /** A payload that has every field, with non-empty texts, loses nothing in
      the shaping. */
  lemma TransformKeepsCompletePayload(p: Payload)
    requires p.image.Some? && p.image.value != "" && p.summary.Some? && p.summary.value != ""
    requires p.extendedIngredients.Some? && p.analyzedInstructions.Some? && p.nutrition.Some?
    requires p.diets.Some? && p.dishTypes.Some?
    requires p.creditsText.Some? && p.creditsText.value != "" && p.sourceUrl.Some? && p.sourceUrl.value != ""
    ensures AsPayload(Transform(p)) == p.(missedIngredients := None, usedIngredients := None, flags := NoFlags)
  {
  }

  /** `GET /api/recipes/:id`: the provider's payload, or the mock when that
      call fails; a reply without data is a 500. */
  function GetRecipe(idText: string, fetched: Fetch<Option<Payload>>): (r: Response<RecipeDetail>)
    ensures fetched.FetchFailed? ==> r == Success(Transform(MockRecipe(idText)))
    ensures fetched.Fetched? && fetched.data.Some? ==> r == Success(Transform(fetched.data.value))
    ensures r.Failure? <==> fetched == Fetched(None)
    ensures r.Failure? ==> r.status == 500 && r.error == "Failed to fetch recipe details"
  {
    match fetched
    case FetchFailed => Success(Transform(MockRecipe(idText)))
    case Fetched(None) => Failure(500, "Failed to fetch recipe details")
    case Fetched(Some(p)) => Success(Transform(p))
  }

  /** For a numeric id, the mock recipe carries that id and the numbered title. */
  lemma MockForNumericId(n: nat, fetched: Fetch<Option<Payload>>)
    requires fetched.FetchFailed?
    ensures var r := GetRecipe(NatToString(n), fetched);
      && r.Success?
      && r.body.id == Some(n)
      && r.body.title == Some("Recipe #" + NatToString(n))
      && r.body.readyInMinutes == Some(30) && r.body.servings == Some(4)
      && |r.body.ingredients| == 2
  {
    ParseNatToString(n);
  }

  // ------------------------------------------------------------ customisation

  /** `newServings / originalServings`, kept as an exact fraction. */
  datatype Fraction = Fraction(num: int, den: int)

  datatype CustomizeBody = CustomizeBody(
    originalServings: int,
    newServings: int,
    scaledIngredients: seq<Ingredient>,
    scaleFactor: Fraction)

  /** `Math.round(amount * factor * 100) / 100`: a whole number of
      hundredths, or a value that is not finite, kept as its printed form. */
  datatype Scaled = Hundredths(h: int) | NotFinite(text: string)

  /** The amount scaled by `num / den`. An absent amount or serving count
      makes the product NaN; a zero serving count makes the factor infinite,
      and an infinite factor times zero is NaN. */
  function ScaleAmount(amount: Option<Decimal>, num: int, den: Option<int>): (r: Scaled)
    ensures amount.None? || den.None? ==> r == NotFinite("NaN")
    ensures r.Hundredths? <==> amount.Some? && den.Some? && den.value != 0
    ensures r.Hundredths? ==>
      var c := Pow10(amount.value.scale) * den.value;
      var t := amount.value.mantissa * num * 100;
      && (c > 0 ==> 2 * c * r.h <= 2 * t + c < 2 * c * (r.h + 1))
      && (c < 0 ==> 2 * (-c) * r.h <= 2 * (-t) - c < 2 * (-c) * (r.h + 1))
    ensures amount.Some? && den == Some(0) ==>
      var t := amount.value.mantissa * num;
      r == NotFinite(if t > 0 then "Infinity" else if t < 0 then "-Infinity" else "NaN")
  {
    if amount.None? || den.None? then NotFinite("NaN")
    else
      var t := amount.value.mantissa * num;
      if den.value == 0 then NotFinite(if t > 0 then "Infinity" else if t < 0 then "-Infinity" else "NaN")
      else Hundredths(RoundQuot(t * 100, Pow10(amount.value.scale) * den.value))
  }

  /** How the scaled number prints in a template string. */
  function AmountText(a: Scaled): string {
    match a
    case Hundredths(h) => HundredthsText(h)
    case NotFinite(t) => t
  }

  /** The scaled number as a decimal; a value that is not finite has none. */
  function AmountValue(a: Scaled): Option<Decimal> {
    match a
    case Hundredths(h) => Some(Decimal(h, 2))
    case NotFinite(_) => None
  }

  /** `${ingredient.unit}`: an absent unit prints as "undefined". */
  function UnitText(u: Option<string>): string {
    match u
    case Some(t) => t
    case None => "undefined"
  }

  /** `{ ...ingredient, amount: scaled, original: `${scaled} ${unit} ${name}` }`:
      the same ingredient with its amount scaled and a new display text. */
  function ScaleIngredient(x: Ingredient, num: int, den: Option<int>): (r: Ingredient)
    ensures r.id == x.id && r.name == x.name && r.unit == x.unit
    ensures r.original.Some?
    ensures r.amount.Some? <==> x.amount.Some? && den.Some? && den.value != 0
  {
    var a := ScaleAmount(x.amount, num, den);
    x.(amount := AmountValue(a), original := Some(AmountText(a) + " " + UnitText(x.unit) + " " + x.name))
  }

  /** A whole amount scaled by a factor that divides it evenly prints as the
      whole result, then the unit and the name. */
  lemma ScaleWholeAmount(x: Ingredient, n: nat, num: nat, d: int)
    requires x.amount == Some(Decimal(n, 0))
    requires d > 0 && (n * num) % d == 0
    ensures var q := n * num / d;
      && ScaleIngredient(x, num, Some(d)).original == Some(NatToString(q) + " " + UnitText(x.unit) + " " + x.name)
      && ScaleIngredient(x, num, Some(d)).amount == Some(Decimal(100 * q, 2))
  {
    var q := n * num / d;
    var m := n * num;
    assert m == d * q;
    assert m * 100 == (100 * q) * d;
    assert Pow10(0) * d == d;
    RoundDivExact(100 * q, d);
    var a := ScaleAmount(x.amount, num, Some(d));
    assert a == Hundredths(100 * q);
    assert (100 * q) % 100 == 0 && (100 * q) / 100 == q;
    assert AmountText(a) == NatToString(q);
  }

  /** Every ingredient scaled by `num / den`. */
  function ScaleAll(xs: seq<Ingredient>, num: int, den: Option<int>): (r: seq<Ingredient>)
    ensures |r| == |xs|
    ensures forall i :: 0 <= i < |xs| ==> r[i] == ScaleIngredient(xs[i], num, den)
  {
    seq(|xs|, i requires 0 <= i < |xs| => ScaleIngredient(xs[i], num, den))
  }

  /** `POST /api/recipes/:id/customize`. A missing, zero or smaller-than-one
      serving count is a 400. Then the original recipe is fetched: a failed
      call, a reply without data or a recipe without an ingredient list makes
      the route throw, a 500. */
  function Customize(newServings: Option<int>, fetched: Fetch<Option<Payload>>): (r: Response<CustomizeBody>)
    ensures r.Failure? && r.status == 400 <==> newServings.None? || newServings.value < 1
    ensures r.Failure? && r.status == 400 ==> r.error == "Valid servings number required"
    ensures r.Failure? && r.status == 500 <==>
      newServings.Some? && newServings.value >= 1 &&
      (fetched.FetchFailed? || fetched.data.None? || fetched.data.value.extendedIngredients.None?)
    ensures r.Failure? && r.status == 500 ==> r.error == "Failed to customize recipe"
    ensures r.Success? ==>
      var recipe := fetched.data.value;
      && r.body.newServings == newServings.value
      && r.body.originalServings != 0
      && (recipe.servings.Some? && recipe.servings.value != 0 ==> r.body.originalServings == recipe.servings.value)
      && (recipe.servings.None? || recipe.servings.value == 0 ==> r.body.originalServings == 4)
      && r.body.scaleFactor.den == r.body.originalServings
      && r.body.scaleFactor.num == r.body.newServings
      && r.body.scaledIngredients == ScaleAll(recipe.extendedIngredients.value, newServings.value, Some(r.body.originalServings))
  {
    if newServings.None? || newServings.value < 1 then Failure(400, "Valid servings number required")
    else
      match fetched
      case FetchFailed => Failure(500, "Failed to customize recipe")
      case Fetched(None) => Failure(500, "Failed to customize recipe")
      case Fetched(Some(recipe)) =>
        if recipe.extendedIngredients.None? then Failure(500, "Failed to customize recipe")
        else
          var original := if recipe.servings.Some? && recipe.servings.value != 0 then recipe.servings.value else 4;
          Success(CustomizeBody(original, newServings.value, ScaleAll(recipe.extendedIngredients.value, newServings.value, Some(original)),
                                Fraction(newServings.value, original)))
  }

  /** Customising to the recipe's own serving count is the unit scale. */
  lemma CustomizeToSameIsIdentity(recipe: Payload)
    requires recipe.servings.Some? && recipe.servings.value >= 1
    requires recipe.extendedIngredients.Some?
    ensures var r := Customize(recipe.servings, Fetched(Some(recipe)));
      && r.Success?
      && r.body.scaleFactor.num == r.body.scaleFactor.den
      && forall i :: 0 <= i < |r.body.scaledIngredients| ==>
           r.body.scaledIngredients[i].name == recipe.extendedIngredients.value[i].name
  {
  }

  /** A recipe with the stand-in's ingredients (2 cups and 1 tbsp for 4
      servings) customised to 8 servings doubles both amounts
      and prints them as whole numbers. */
  lemma CustomizeDoubledExample(idText: string)
    ensures var r := Customize(Some(8), Fetched(Some(MockRecipe(idText))));
      && r.Success?
      && |r.body.scaledIngredients| == 2
      && r.body.scaledIngredients[0].original == Some("4 cups ingredient 1")
      && r.body.scaledIngredients[1].original == Some("2 tbsp ingredient 2")
  {
    MockIngredientsDoubled();
  }

  /** Solver helper for `CustomizeDoubledExample`: both texts, proved one
      ingredient at a time. */
  lemma MockIngredientsDoubled()
    ensures ScaleIngredient(MockIngredients[0], 8, Some(4)).original == Some("4 cups ingredient 1")
    ensures ScaleIngredient(MockIngredients[1], 8, Some(4)).original == Some("2 tbsp ingredient 2")
  {
    FirstMockDoubled();
    SecondMockDoubled();
  }

  /** Solver helper for `CustomizeDoubledExample`: the first ingredient. */
  lemma FirstMockDoubled()
    ensures ScaleIngredient(MockIngredients[0], 8, Some(4)).original == Some("4 cups ingredient 1")
  {
    var x := MockIngredients[0];
    assert x.amount == Some(Decimal(2, 0)) && x.unit == Some("cups") && x.name == "ingredient 1";
    assert NatToString(4) == "4";
    DoubledText(x, 2, "4", "cups", "ingredient 1");
    CupsSpelled();
  }

  /** Solver helper for `CustomizeDoubledExample`: the second ingredient. */
  lemma SecondMockDoubled()
    ensures ScaleIngredient(MockIngredients[1], 8, Some(4)).original == Some("2 tbsp ingredient 2")
  {
    var y := MockIngredients[1];
    assert y.amount == Some(Decimal(1, 0)) && y.unit == Some("tbsp") && y.name == "ingredient 2";
    assert NatToString(2) == "2";
    DoubledText(y, 1, "2", "tbsp", "ingredient 2");
    TbspSpelled();
  }

  /** Solver helper for `CustomizeDoubledExample`: a whole amount doubled
      from 4 to 8 servings. */
  lemma DoubledText(x: Ingredient, n: nat, amount: string, unit: string, name: string)
    requires x.amount == Some(Decimal(n, 0)) && x.unit == Some(unit) && x.name == name
    requires amount == NatToString(2 * n)
    ensures ScaleIngredient(x, 8, Some(4)).original == Some(amount + " " + unit + " " + name)
  {
    ScaleWholeAmount(x, n, 8, 4);
    assert n * 8 / 4 == 2 * n;
  }

  /** Solver helper: a string-literal equality kept out of larger contexts,
      where it is expensive to prove. */
  lemma CupsSpelled()
    ensures "4" + " " + "cups" + " " + "ingredient 1" == "4 cups ingredient 1"
  {
  }

  /** Solver helper, as `CupsSpelled`. */
  lemma TbspSpelled()
    ensures "2" + " " + "tbsp" + " " + "ingredient 2" == "2 tbsp ingredient 2"
  {
  }
}
