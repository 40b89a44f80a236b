/** The record shapes that travel between the recipe provider, the backend
    routes and the browser. JavaScript fields that may be undefined are
    `Option`s; the seven dietary flags of a provider payload are booleans
    (an absent flag reads as false, which is what `flag || false` yields). */
module Records {
  import opened Common

  datatype Flags = Flags(
    cheap: bool, dairyFree: bool, glutenFree: bool, vegan: bool,
    vegetarian: bool, veryHealthy: bool, veryPopular: bool)

  const NoFlags := Flags(false, false, false, false, false, false, false)

  /** A JSON number literal as the provider writes it: `mantissa / 10^scale`. */
  datatype Decimal = Decimal(mantissa: int, scale: nat)

  /** One entry of a provider ingredient list: `original` is its display text
      ("2 cups flour"), `amount` its quantity. */
  datatype Ingredient = Ingredient(
    id: Option<int>, name: string, original: Option<string>, unit: Option<string>, amount: Option<Decimal>)

  datatype Nutrient = Nutrient(title: string, amount: int, unit: string)

  /** A recipe object as the provider returns it (or as the search route
      synthesises it). An instruction block is its list of step texts. */
  datatype Payload = Payload(
    id: Option<int>,
    title: Option<string>,
    image: Option<string>,
    readyInMinutes: Option<int>,
    servings: Option<int>,
    summary: Option<string>,
    extendedIngredients: Option<seq<Ingredient>>,
    missedIngredients: Option<seq<Ingredient>>,
    usedIngredients: Option<seq<Ingredient>>,
    analyzedInstructions: Option<seq<seq<string>>>,
    nutrition: Option<seq<Nutrient>>,
    flags: Flags,
    diets: Option<seq<string>>,
    dishTypes: Option<seq<string>>,
    creditsText: Option<string>,
    sourceUrl: Option<string>)

  /** The list record the search route sends for every recipe; the dashboard's
      sample recipes have the same shape. A `None` match percentage is NaN. */
  datatype Summary = Summary(
    id: Option<int>,
    title: Option<string>,
    image: string,
    readyInMinutes: int,
    servings: int,
    matchPercentage: Option<int>,
    flags: Flags)

  /** A recipe entry the browser keeps: an element of the `favorites` list or
      the content of a meal-plan slot. */
  datatype StoredRecipe = StoredRecipe(
    id: Option<int>,
    title: Option<string>,
    image: string,
    readyInMinutes: Option<int>,
    servings: Option<int>,
    matchPercentage: Option<int>,
    veryHealthy: bool)
}
