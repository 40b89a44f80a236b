/** The recipe search route (`GET /api/recipes/search`): query parsing, the
    provider parameters a filter selects, the order in which result sources are
    tried, per-candidate normalisation with field defaults, the bounded score
    jitter, and the final ranking.

    The provider calls are not modelled: the caller supplies the outcome of the
    ingredient search, of the general search, and a table of detail payloads by
    recipe id (an id missing from the table is a failed detail call). The random
    jitter of each record and the clock are parameters too. */
module Search {
  import opened Common
  import opened Text
  import opened Records
  import opened Matching

  const PlaceholderImage := "https://via.placeholder.com/312x231?text=Recipe+Image"
  const DefaultTitle := "Delicious Recipe"
  const DefaultReadyMinutes := 30
  const DefaultServings := 4
  /** How many candidates are normalised. */
  const MaxCandidates := 15
  /** The cap on the requested result count. */
  const MaxNumber := 25
  const DefaultNumber := 15
  /** The jitter added to a score is below this bound. */
  const JitterRange := 20

  // ------------------------------------------------------------ query

  /** `ingredients.split(',').map(ing => ing.trim()).filter(ing => ing)`. */
  function ParseIngredients(s: string): (r: seq<string>)
    ensures forall i :: 0 <= i < |r| ==> r[i] != "" && IsTrimmed(r[i]) && ',' !in r[i]
  {
    TrimNonEmpty(Split(s, ','))
  }

  /** Trims every piece and drops the pieces that become empty. */
  function TrimNonEmpty(parts: seq<string>): (r: seq<string>)
    requires forall i :: 0 <= i < |parts| ==> ',' !in parts[i]
    ensures |r| <= |parts|
    ensures forall i :: 0 <= i < |r| ==> r[i] != "" && IsTrimmed(r[i]) && ',' !in r[i]
    decreases |parts|
  {
    if |parts| == 0 then []
    else
      var t := Trim(parts[0]);
      TrimIsTrimmed(parts[0]);
      TrimKeepsOut(parts[0], ',');
      (if t == "" then [] else [t]) + TrimNonEmpty(parts[1..])
  }

  /** A non-empty parameter made only of commas passes the presence check of
      the route but yields no ingredient at all. */
  lemma OnlyCommasYieldNothing(s: string)
    requires forall i :: 0 <= i < |s| ==> s[i] == ','
    ensures ParseIngredients(s) == []
  {
    var parts := Split(s, ',');
    SplitOnlySeparators(s, ',');
    AllEmptyPiecesVanish(parts);
  }

  lemma {:induction false} AllEmptyPiecesVanish(parts: seq<string>)
    requires forall i :: 0 <= i < |parts| ==> parts[i] == ""
    ensures TrimNonEmpty(parts) == []
    decreases |parts|
  {
    if |parts| > 0 {
      assert Trim(parts[0]) == "";
      AllEmptyPiecesVanish(parts[1..]);
    }
  }

  /** Query parameters of the route. */
  datatype SearchQuery = SearchQuery(ingredients: Option<string>, filter: Option<string>, number: Option<int>)

  /** The presence check and the parsing of the `ingredients` parameter: a
      missing or empty parameter is a 400 reply. */
  function ParseQuery(q: SearchQuery): (r: Response<seq<string>>)
    ensures r.Failure? <==> (q.ingredients.None? || q.ingredients.value == "")
    ensures r.Failure? ==> r.status == 400 && r.error == "Ingredients parameter is required"
    ensures r.Success? ==> forall i :: 0 <= i < |r.body| ==> r.body[i] != "" && IsTrimmed(r.body[i])
  {
    if q.ingredients.None? || q.ingredients.value == "" then
      Failure(400, "Ingredients parameter is required")
    else
      Success(ParseIngredients(q.ingredients.value))
  }

  // ------------------------------------------------------------ provider parameters

  /** The provider query parameters the route builds. They are computed but never
      sent: the request actually issued uses fixed parameters (see
      `IngredientSearch`). */
  datatype ProviderParams = ProviderParams(
    ingredients: string,
    number: int,
    ranking: int,
    ignorePantry: bool,
    addRecipeInformation: bool,
    addRecipeNutrition: bool,
    maxReadyTime: Option<int>,
    diet: Option<string>,
    maxCalories: Option<int>,
    sort: Option<string>,
    query: Option<string>,
    dishType: Option<string>)

  /** The parameters before any filter applies. */
  function BaseParams(ingredients: seq<string>, number: int): ProviderParams {
    ProviderParams(Join(ingredients, ","), Min(number, MaxNumber), 2, true, true, true,
                   None, None, None, None, None, None)
  }

  /** The filter `switch` on the lower-cased filter name; an absent or empty
      filter and an unknown name change nothing. */
  function ApplyFilter(p: ProviderParams, filter: Option<string>): (r: ProviderParams)
    ensures r.ingredients == p.ingredients && r.number == p.number
    ensures filter.None? || filter.value == "" ==> r == p
    ensures filter.Some? && filter.value != "" ==>
      var name := Lower(filter.value);
      && (name == "quick" ==> r == p.(maxReadyTime := Some(30)))
      && (name == "healthy" ==> r == p.(diet := Some("vegetarian,vegan"), maxCalories := Some(500)))
      && (name == "comfort" ==> r == p.(sort := Some("popularity"), maxCalories := Some(800)))
      && (name == "spicy" ==> r == p.(query := Some("spicy")))
      && (name == "vegetarian" ==> r == p.(diet := Some("vegetarian")))
      && (name == "sweet" ==> r == p.(dishType := Some("dessert")))
      && (name !in KnownFilters ==> r == p)
  {
    if filter.None? || filter.value == "" then p
    else
      match Lower(filter.value)
      case "quick" => p.(maxReadyTime := Some(30))
      case "healthy" => p.(diet := Some("vegetarian,vegan"), maxCalories := Some(500))
      case "comfort" => p.(sort := Some("popularity"), maxCalories := Some(800))
      case "spicy" => p.(query := Some("spicy"))
      case "vegetarian" => p.(diet := Some("vegetarian"))
      case "sweet" => p.(dishType := Some("dessert"))
      case _ => p
  }

  const KnownFilters: set<string> := {"quick", "healthy", "comfort", "spicy", "vegetarian", "sweet"}

  /** The full parameter object of the route. */
  function BuildParams(ingredients: seq<string>, filter: Option<string>, number: Option<int>): (r: ProviderParams)
    ensures r.number <= MaxNumber
    ensures number.None? ==> r.number == DefaultNumber
    ensures number.Some? ==> r.number == Min(number.value, MaxNumber)
    ensures r.ingredients == Join(ingredients, ",")
  {
    ApplyFilter(BaseParams(ingredients, number.GetOr(DefaultNumber)), filter)
  }

  /** The comma-joined ingredient parameter splits back into the parsed list
      (an empty list joins to the empty string, which splits into one empty
      piece). */
  lemma ParamsIngredientsRoundTrip(s: string, filter: Option<string>, number: Option<int>)
    requires ParseIngredients(s) != []
    ensures Split(BuildParams(ParseIngredients(s), filter, number).ingredients, ',') == ParseIngredients(s)
  {
    SplitJoin(ParseIngredients(s), ',');
  }

  /** Filter names are matched regardless of letter case. */
  lemma FilterIgnoresCase(p: ProviderParams, a: string, b: string)
    requires Lower(a) == Lower(b)
    ensures ApplyFilter(p, Some(a)) == ApplyFilter(p, Some(b))
  {
    assert |a| == |Lower(a)| == |Lower(b)| == |b|;
  }

  // ------------------------------------------------------------ sources

  /** The request actually sent to the ingredient search. */
  datatype IngredientSearch = IngredientSearch(ingredients: string, number: int, ranking: int, ignorePantry: bool)

  function IngredientRequest(ingredients: seq<string>): (r: IngredientSearch)
    ensures r.number == MaxCandidates
  {
    IngredientSearch(Join(ingredients, ","), 15, 2, true)
  }

  /** The free-text query of the general search: the first ingredient, or
      "food" when there is none. */
  function GeneralQuery(ingredients: seq<string>): (q: string)
    ensures q != ""
    ensures |ingredients| > 0 && ingredients[0] != "" ==> q == ingredients[0]
  {
    FirstOr(ingredients, "food")
  }

  /** The candidate list the route works on: the ingredient search's data when
      that call succeeds, otherwise the general search's `results`; missing data
      reads as an empty list. None means the general search threw too, which
      the route reports as a 500. */
  function Candidates(primary: Fetch<Option<seq<Payload>>>, secondary: Fetch<Option<seq<Payload>>>): (r: Option<seq<Payload>>)
    ensures r.None? <==> primary.FetchFailed? && secondary.FetchFailed?
    ensures primary.Fetched? ==> r == Some(primary.data.GetOr([]))
    ensures primary.FetchFailed? && secondary.Fetched? ==> r == Some(secondary.data.GetOr([]))
  {
    match primary
    case Fetched(data) => Some(data.GetOr([]))
    case FetchFailed =>
      match secondary
      case Fetched(results) => Some(results.GetOr([]))
      case FetchFailed => None
  }

  // ------------------------------------------------------------ synthesised fallback

  /** `list.map((ing, idx) => ({ id: idx + base, name: ing, amount, unit }))`. */
  function IngredientsFor(ingredients: seq<string>, base: int, amount: int, unit: string): (r: seq<Ingredient>)
    ensures |r| == |ingredients|
    ensures forall i :: 0 <= i < |r| ==> r[i].name == ingredients[i] && r[i].id == Some(i + base)
  {
    seq(|ingredients|, i requires 0 <= i < |ingredients| => Ingredient(Some(i + base), ingredients[i], None, Some(unit), Some(Decimal(amount, 0))))
  }

  /** `list[0] || d`. */
  function FirstOr(xs: seq<string>, d: string): (r: string)
    ensures |xs| > 0 && xs[0] != "" ==> r == xs[0]
    ensures |xs| == 0 || xs[0] == "" ==> r == d
  {
    if |xs| > 0 && xs[0] != "" then xs[0] else d
  }

  /** The two recipes the route makes up when no source returned any. */
  function SynthesisedRecipes(ingredients: seq<string>): (r: seq<Payload>)
    ensures |r| == 2
    ensures r[0].id == Some(1) && r[1].id == Some(2)
    ensures forall k :: 0 <= k < 2 ==>
      && r[k].extendedIngredients.Some?
      && |r[k].extendedIngredients.value| == |ingredients|
      && (forall i :: 0 <= i < |ingredients| ==>
            r[k].extendedIngredients.value[i].name == ingredients[i]
            && r[k].extendedIngredients.value[i].id == Some(i + 1000 * (k + 1)))
    ensures forall k :: 0 <= k < 2 ==> r[k].analyzedInstructions.Some? && r[k].nutrition.Some?
  {
    [ Payload(Some(1), Some(FirstOr(ingredients, "Simple") + " Stir Fry"),
              Some("https://spoonacular.com/recipeImages/1-312x231.jpg"), Some(20), Some(2), None,
              Some(IngredientsFor(ingredients, 1000, 1, "cup")), None, None,
              Some([[ "Chop " + Join(ingredients, " and "), "Heat oil in a pan",
                      "Add ingredients and stir fry for 10-15 minutes", "Season with salt and pepper",
                      "Serve hot" ]]),
              Some([Nutrient("Calories", 350, "kcal"), Nutrient("Protein", 15, "g"),
                    Nutrient("Carbs", 45, "g"), Nutrient("Fat", 12, "g")]),
              NoFlags, None, None, None, None),
      Payload(Some(2), Some(FirstOr(ingredients, "Quick") + " Soup"),
              Some("https://spoonacular.com/recipeImages/2-312x231.jpg"), Some(25), Some(4), None,
              Some(IngredientsFor(ingredients, 2000, 2, "cups")), None, None,
              Some([[ "Dice " + Join(ingredients, ", "), "Boil 4 cups of water",
                      "Add ingredients and simmer for 20 minutes", "Add seasonings of your choice",
                      "Serve warm with bread" ]]),
              Some([Nutrient("Calories", 200, "kcal"), Nutrient("Protein", 8, "g"),
                    Nutrient("Carbs", 30, "g"), Nutrient("Fat", 6, "g")]),
              NoFlags, None, None, None, None) ]
  }

  /** An empty candidate list is replaced by the synthesised pair. */
  function WithFallback(ingredients: seq<string>, found: seq<Payload>): (r: seq<Payload>)
    ensures found != [] ==> r == found
    ensures found == [] ==> r == SynthesisedRecipes(ingredients)
  {
    if |found| == 0 then SynthesisedRecipes(ingredients) else found
  }

  /** The synthesised recipes list exactly the user's ingredients, so their
      score is 100 for a non-empty list and NaN for an empty one. */
  lemma SynthesisedScore(ingredients: seq<string>, k: nat)
    requires k < 2
    ensures ingredients != [] ==>
      MatchPercentage(ingredients, ExtractIngredients(SynthesisedRecipes(ingredients)[k])) == Some(100)
    ensures ingredients == [] ==>
      MatchPercentage(ingredients, ExtractIngredients(SynthesisedRecipes(ingredients)[k])).None?
  {
    var names := ExtractIngredients(SynthesisedRecipes(ingredients)[k]);
    assert names == LowerAll(ingredients);
    if ingredients != [] {
      SelfMatchIsFull(ingredients);
    }
  }

  // ------------------------------------------------------------ normalisation

  /** `Math.min(score + jitter, 100)`; NaN stays NaN. */
  function Jittered(base: Option<int>, j: int): (r: Option<int>)
    ensures r.None? <==> base.None?
    ensures r.Some? ==> r.value <= 100
    ensures r.Some? && 0 <= j ==> r.value >= Min(base.value, 100)
    ensures r.Some? && base.value + j <= 100 ==> r.value == base.value + j
  {
    match base
    case None => None
    case Some(b) => Some(Min(b + j, 100))
  }

  /** The shown score of a payload for a user. */
  function ShownScore(user: seq<string>, p: Payload, j: int): (r: Option<int>)
    requires 0 <= j < JitterRange
    ensures r.None? <==> ExtractIngredients(p) == []
    ensures r.Some? ==> 0 <= r.value <= 100
  {
    Jittered(MatchPercentage(user, ExtractIngredients(p)), j)
  }

  /** A record built from a payload that carries its own details: id, title and
      flags as given, the other fields defaulted. */
  function FromPayload(user: seq<string>, p: Payload, j: int): (r: Summary)
    requires 0 <= j < JitterRange
    ensures r.id == p.id && r.title == p.title && r.flags == p.flags
    ensures r.image == TextOr(p.image, PlaceholderImage)
    ensures r.readyInMinutes == IntOr(p.readyInMinutes, DefaultReadyMinutes)
    ensures r.servings == IntOr(p.servings, DefaultServings)
    ensures r.matchPercentage == ShownScore(user, p, j)
  {
    Summary(p.id, p.title, TextOr(p.image, PlaceholderImage),
            IntOr(p.readyInMinutes, DefaultReadyMinutes), IntOr(p.servings, DefaultServings),
            ShownScore(user, p, j), p.flags)
  }

  /** The record of the error path: id and title defaulted too, flags false. */
  function BasicRecord(user: seq<string>, p: Payload, j: int, now: int): (r: Summary)
    requires 0 <= j < JitterRange
    ensures r.id == Some(IntOr(p.id, now)) && r.title == Some(TextOr(p.title, DefaultTitle))
    ensures r.flags == NoFlags
    ensures r.image == TextOr(p.image, PlaceholderImage)
    ensures r.readyInMinutes == IntOr(p.readyInMinutes, DefaultReadyMinutes)
    ensures r.servings == IntOr(p.servings, DefaultServings)
    ensures r.matchPercentage == ShownScore(user, p, j)
  {
    Summary(Some(IntOr(p.id, now)), Some(TextOr(p.title, DefaultTitle)), TextOr(p.image, PlaceholderImage),
            IntOr(p.readyInMinutes, DefaultReadyMinutes), IntOr(p.servings, DefaultServings),
            ShownScore(user, p, j), NoFlags)
  }

  /** Whether a candidate already carries instructions and nutrition. */
  predicate HasDetails(p: Payload) {
    p.analyzedInstructions.Some? && p.nutrition.Some?
  }

  /** Where a candidate's record comes from: itself when it has details,
      otherwise its fetched detail payload, and None when the detail call
      failed. */
  function Source(c: Payload, details: map<int, Payload>): (r: Option<Payload>)
    ensures HasDetails(c) ==> r == Some(c)
    ensures !HasDetails(c) && c.id.Some? && c.id.value in details ==> r == Some(details[c.id.value])
    ensures r.None? <==> !HasDetails(c) && (c.id.None? || c.id.value !in details)
  {
    if HasDetails(c) then Some(c)
    else if c.id.Some? && c.id.value in details then Some(details[c.id.value])
    else None
  }

  /** One candidate's record. Whatever its source, the record has an image,
      non-zero times and servings, and a score in 0..100 or NaN. */
  function NormaliseCandidate(user: seq<string>, c: Payload, details: map<int, Payload>, j: int, now: int): (r: Summary)
    requires 0 <= j < JitterRange
    ensures r.image != "" && r.readyInMinutes != 0 && r.servings != 0
    ensures r.matchPercentage.Some? ==> 0 <= r.matchPercentage.value <= 100
    ensures Source(c, details).Some? ==> r == FromPayload(user, Source(c, details).value, j)
    ensures Source(c, details).None? ==> r == BasicRecord(user, c, j, now)
    ensures Source(c, details).None? ==> r.id.Some? && r.title.Some? && r.flags == NoFlags
  {
    match Source(c, details)
    case Some(p) => FromPayload(user, p, j)
    case None => BasicRecord(user, c, j, now)
  }

  /** The shown score lies between the exact score and 100. */
  lemma ShownScoreBounds(user: seq<string>, p: Payload, j: int)
    requires 0 <= j < JitterRange
    requires ExtractIngredients(p) != []
    ensures var base := MatchPercentage(user, ExtractIngredients(p)).value;
            var shown := ShownScore(user, p, j).value;
            base <= shown <= 100 && shown <= base + j
  {
  }

  /** The records of the first `MaxCandidates` candidates, one per candidate,
      in candidate order. */
  function NormaliseAll(user: seq<string>, cands: seq<Payload>, details: map<int, Payload>, jitter: seq<int>, now: int): (r: seq<Summary>)
    requires |jitter| >= |cands|
    requires forall i :: 0 <= i < |jitter| ==> 0 <= jitter[i] < JitterRange
    ensures |r| == |cands|
    ensures forall i :: 0 <= i < |cands| ==> r[i] == NormaliseCandidate(user, cands[i], details, jitter[i], now)
  {
    seq(|cands|, i requires 0 <= i < |cands| => NormaliseCandidate(user, cands[i], details, jitter[i], now))
  }

  // ------------------------------------------------------------ ranking

  /** The sort key; only used when every score is a number. */
  function Score(s: Summary): int {
    s.matchPercentage.GetOr(0)
  }

  predicate AllScored(rs: seq<Summary>) {
    forall i :: 0 <= i < |rs| ==> rs[i].matchPercentage.Some?
  }

  predicate SortedDesc(rs: seq<Summary>) {
    forall i, j :: 0 <= i < j < |rs| ==> Score(rs[i]) >= Score(rs[j])
  }

  /** The records with score k, in their order. */
  function WithScore(rs: seq<Summary>, k: int): (r: seq<Summary>)
    ensures |r| <= |rs|
    decreases |rs|
  {
    if |rs| == 0 then []
    else (if Score(rs[0]) == k then [rs[0]] else []) + WithScore(rs[1..], k)
  }

  /** Puts x in front of the first record that scores strictly less. */
  function Insert(x: Summary, rs: seq<Summary>): (r: seq<Summary>)
    ensures multiset(r) == multiset(rs) + multiset{x}
    ensures |r| == |rs| + 1
    decreases |rs|
  {
    if |rs| == 0 || Score(x) >= Score(rs[0]) then [x] + rs
    else
      assert rs == [rs[0]] + rs[1..];
      [rs[0]] + Insert(x, rs[1..])
  }

  lemma {:induction false} InsertSorted(x: Summary, rs: seq<Summary>)
    requires SortedDesc(rs)
    ensures SortedDesc(Insert(x, rs))
    decreases |rs|
  {
    if |rs| > 0 && Score(x) < Score(rs[0]) {
      var tail := Insert(x, rs[1..]);
      SortedTail(rs);
      InsertSorted(x, rs[1..]);
      forall i | 0 <= i < |tail|
        ensures Score(rs[0]) >= Score(tail[i])
      {
        InsertBelowHead(x, rs, tail[i]);
      }
      SortedCons(rs[0], tail);
    }
  }

  lemma SortedTail(rs: seq<Summary>)
    requires SortedDesc(rs) && |rs| > 0
    ensures SortedDesc(rs[1..])
  {
    forall i, j | 0 <= i < j < |rs[1..]| ensures Score(rs[1..][i]) >= Score(rs[1..][j]) {
      assert rs[1..][i] == rs[i + 1] && rs[1..][j] == rs[j + 1];
    }
  }

  lemma SortedCons(h: Summary, t: seq<Summary>)
    requires SortedDesc(t)
    requires forall i :: 0 <= i < |t| ==> Score(h) >= Score(t[i])
    ensures SortedDesc([h] + t)
  {
    var r := [h] + t;
    forall i, j | 0 <= i < j < |r| ensures Score(r[i]) >= Score(r[j]) {
      assert r[j] == t[j - 1];
      if i > 0 {
        assert r[i] == t[i - 1];
      }
    }
  }

  /** Every record of `Insert(x, rs[1..])` scores at most the head of a
      sorted `rs` that outscores x. */
  lemma InsertBelowHead(x: Summary, rs: seq<Summary>, m: Summary)
    requires SortedDesc(rs) && |rs| > 0 && Score(x) < Score(rs[0])
    requires m in multiset(Insert(x, rs[1..]))
    ensures Score(rs[0]) >= Score(m)
  {
    if m != x {
      assert m in multiset(rs[1..]);
      var j :| 0 <= j < |rs[1..]| && rs[1..][j] == m;
      assert rs[j + 1] == m;
    }
  }

  lemma {:induction false} InsertWithScore(x: Summary, rs: seq<Summary>, k: int)
    ensures WithScore(Insert(x, rs), k) == (if Score(x) == k then [x] else []) + WithScore(rs, k)
    decreases |rs|
  {
    if |rs| == 0 || Score(x) >= Score(rs[0]) {
      WithScoreCons(x, rs, k);
    } else {
      var tail := Insert(x, rs[1..]);
      var rest := WithScore(rs[1..], k);
      assert Insert(x, rs) == [rs[0]] + tail;
      InsertWithScore(x, rs[1..], k);
      WithScoreCons(rs[0], tail, k);
      assert rs == [rs[0]] + rs[1..];
      WithScoreCons(rs[0], rs[1..], k);
      if Score(x) == k {
        assert WithScore(Insert(x, rs), k) == [] + ([x] + rest);
      } else {
        assert WithScore(tail, k) == [] + rest;
      }
    }
  }

  lemma WithScoreCons(h: Summary, t: seq<Summary>, k: int)
    ensures WithScore([h] + t, k) == (if Score(h) == k then [h] else []) + WithScore(t, k)
  {
    assert ([h] + t)[1..] == t;
  }

  /** Stable insertion sort by non-increasing score: `sort((a, b) => b.m - a.m)`
      on a stable engine. */
  function SortDesc(rs: seq<Summary>): (r: seq<Summary>)
    ensures multiset(r) == multiset(rs)
    ensures |r| == |rs|
    decreases |rs|
  {
    if |rs| == 0 then []
    else
      assert rs == [rs[0]] + rs[1..];
      Insert(rs[0], SortDesc(rs[1..]))
  }

  /** The sort orders by score, permutes, and keeps records of equal score in
      their original relative order. */
  lemma {:induction false} SortDescCorrect(rs: seq<Summary>)
    ensures SortedDesc(SortDesc(rs))
    ensures multiset(SortDesc(rs)) == multiset(rs)
    ensures forall k :: WithScore(SortDesc(rs), k) == WithScore(rs, k)
    decreases |rs|
  {
    if |rs| > 0 {
      SortDescCorrect(rs[1..]);
      InsertSorted(rs[0], SortDesc(rs[1..]));
      forall k
        ensures WithScore(SortDesc(rs), k) == WithScore(rs, k)
      {
        InsertWithScore(rs[0], SortDesc(rs[1..]), k);
      }
    }
  }

  /** The final ranking. With every score a number, the stable sort; a NaN
      score makes the comparator inconsistent and the engine's order is
      unspecified, so the model keeps the input order. */
  function Rank(rs: seq<Summary>): (r: seq<Summary>)
    ensures |r| == |rs| && multiset(r) == multiset(rs)
    ensures AllScored(rs) ==> SortedDesc(r) && forall k :: WithScore(r, k) == WithScore(rs, k)
    ensures !AllScored(rs) ==> r == rs
  {
    SortDescCorrect(rs);
    if AllScored(rs) then SortDesc(rs) else rs
  }

  /** Sorting a list that is already in order changes nothing. */
  lemma {:induction false} SortDescKeepsSorted(rs: seq<Summary>)
    requires SortedDesc(rs)
    ensures SortDesc(rs) == rs
    decreases |rs|
  {
    if |rs| > 0 {
      SortDescKeepsSorted(rs[1..]);
      assert rs == [rs[0]] + rs[1..];
    }
  }

  // ------------------------------------------------------------ the route

  datatype SearchBody = SearchBody(count: int, ingredients: seq<string>, recipes: seq<Summary>)

  /** The jitter values are draws of `Math.floor(Math.random() * 20)`, one per
      possible candidate. */
  predicate ValidJitter(jitter: seq<int>) {
    |jitter| >= MaxCandidates && forall i :: 0 <= i < |jitter| ==> 0 <= jitter[i] < JitterRange
  }

  /** The normalised, unranked records of a successful search. */
  function CandidateRecords(ingredients: seq<string>, found: seq<Payload>, details: map<int, Payload>, jitter: seq<int>, now: int): (r: seq<Summary>)
    requires ValidJitter(jitter)
    ensures found != [] ==> |r| == Min(|found|, MaxCandidates)
    ensures found == [] ==> |r| == 2
  {
    var cands := WithFallback(ingredients, found);
    NormaliseAll(ingredients, cands[..Min(|cands|, MaxCandidates)], details, jitter, now)
  }

  /** `GET /api/recipes/search`. */
  function SearchRoute(q: SearchQuery, primary: Fetch<Option<seq<Payload>>>, secondary: Fetch<Option<seq<Payload>>>,
                       details: map<int, Payload>, jitter: seq<int>, now: int): (r: Response<SearchBody>)
    requires ValidJitter(jitter)
    ensures r.Failure? && r.status == 400 <==> q.ingredients.None? || q.ingredients.value == ""
    ensures r.Failure? && r.status == 500 <==>
      !(q.ingredients.None? || q.ingredients.value == "") && primary.FetchFailed? && secondary.FetchFailed?
    ensures r.Failure? ==> r.status == 400 || r.status == 500
    ensures r.Success? ==>
      && r.body.count == |r.body.recipes|
      && 1 <= |r.body.recipes| <= MaxCandidates
      && r.body.ingredients == ParseIngredients(q.ingredients.value)
  {
    match ParseQuery(q)
    case Failure(status, error) => Failure(status, error)
    case Success(ingredients) =>
      match Candidates(primary, secondary)
      case None => Failure(500, "Failed to search recipes")
      case Some(found) => Success(RankedBody(ingredients, found, details, jitter, now))
  }

  /** The body of a successful search: the ranked records and their count. */
  function RankedBody(ingredients: seq<string>, found: seq<Payload>, details: map<int, Payload>, jitter: seq<int>, now: int): (b: SearchBody)
    requires ValidJitter(jitter)
    ensures b.count == |b.recipes| && 1 <= |b.recipes| <= MaxCandidates
    ensures b.ingredients == ingredients
  {
    var ranked := Rank(CandidateRecords(ingredients, found, details, jitter, now));
    SearchBody(|ranked|, ingredients, ranked)
  }

  /** The reply of a search whose query is present and one of whose sources
      answered: the ranked records. */
  lemma RouteReply(q: SearchQuery, primary: Fetch<Option<seq<Payload>>>, secondary: Fetch<Option<seq<Payload>>>,
                   details: map<int, Payload>, jitter: seq<int>, now: int)
    requires ValidJitter(jitter)
    requires q.ingredients.Some? && q.ingredients.value != ""
    requires Candidates(primary, secondary).Some?
    ensures var ingredients := ParseIngredients(q.ingredients.value);
      var ranked := Rank(CandidateRecords(ingredients, Candidates(primary, secondary).value, details, jitter, now));
      SearchRoute(q, primary, secondary, details, jitter, now) == Success(SearchBody(|ranked|, ingredients, ranked))
  {
  }

  /** A successful reply lists a permutation of the candidate records, ranked
      by non-increasing score when every score is a number, with ties in
      candidate order. */
  lemma SearchRanksRecords(q: SearchQuery, primary: Fetch<Option<seq<Payload>>>, secondary: Fetch<Option<seq<Payload>>>,
                           details: map<int, Payload>, jitter: seq<int>, now: int)
    requires ValidJitter(jitter)
    requires SearchRoute(q, primary, secondary, details, jitter, now).Success?
    ensures var body := SearchRoute(q, primary, secondary, details, jitter, now).body;
      var recs := CandidateRecords(body.ingredients, Candidates(primary, secondary).value, details, jitter, now);
      && multiset(body.recipes) == multiset(recs)
      && (AllScored(recs) ==> SortedDesc(body.recipes))
      && (AllScored(recs) ==> forall k :: WithScore(body.recipes, k) == WithScore(recs, k))
  {
  }

  /** The records made from the synthesised pair: ids 1 and 2, scored 100
      for a non-empty ingredient list and NaN for an empty one. */
  lemma FallbackRecords(ingredients: seq<string>, details: map<int, Payload>, jitter: seq<int>, now: int)
    requires ValidJitter(jitter)
    ensures var recs := CandidateRecords(ingredients, [], details, jitter, now);
      && |recs| == 2
      && recs[0].id == Some(1) && recs[1].id == Some(2)
      && (ingredients != [] ==> recs[0].matchPercentage == Some(100) && recs[1].matchPercentage == Some(100))
      && (ingredients == [] ==> recs[0].matchPercentage.None? && recs[1].matchPercentage.None?)
  {
    var syn := SynthesisedRecipes(ingredients);
    SynthesisedScore(ingredients, 0);
    SynthesisedScore(ingredients, 1);
    var recs := CandidateRecords(ingredients, [], details, jitter, now);
    assert WithFallback(ingredients, []) == syn;
    assert syn[..Min(|syn|, MaxCandidates)] == syn;
    assert Source(syn[0], details) == Some(syn[0]);
    assert Source(syn[1], details) == Some(syn[1]);
  }

  /** When no source returns a recipe, the reply is exactly the two made-up
      recipes, ids 1 then 2, each scored 100 for a non-empty ingredient list. */
  lemma SearchFallbackReply(q: SearchQuery, primary: Fetch<Option<seq<Payload>>>, secondary: Fetch<Option<seq<Payload>>>,
                            details: map<int, Payload>, jitter: seq<int>, now: int)
    requires ValidJitter(jitter)
    requires q.ingredients.Some? && q.ingredients.value != ""
    requires Candidates(primary, secondary) == Some([])
    requires ParseIngredients(q.ingredients.value) != []
    ensures var r := SearchRoute(q, primary, secondary, details, jitter, now);
      && r.Success?
      && |r.body.recipes| == 2
      && r.body.recipes[0].id == Some(1) && r.body.recipes[1].id == Some(2)
      && r.body.recipes[0].matchPercentage == Some(100)
      && r.body.recipes[1].matchPercentage == Some(100)
  {
    var ingredients := ParseIngredients(q.ingredients.value);
    var recs := CandidateRecords(ingredients, [], details, jitter, now);
    RouteReply(q, primary, secondary, details, jitter, now);
    FallbackRecords(ingredients, details, jitter, now);
    assert AllScored(recs) by {
      forall i | 0 <= i < |recs| ensures recs[i].matchPercentage.Some? {
        assert i == 0 || i == 1;
      }
    }
    assert SortedDesc(recs) by {
      forall i, k | 0 <= i < k < |recs| ensures Score(recs[i]) >= Score(recs[k]) {
        assert i == 0 && k == 1;
      }
    }
    SortDescKeepsSorted(recs);
  }

  /** A parameter of commas only gets the made-up recipes with NaN scores,
      returned unsorted. */
  lemma SearchOnlyCommas(q: SearchQuery, primary: Fetch<Option<seq<Payload>>>, secondary: Fetch<Option<seq<Payload>>>,
                         details: map<int, Payload>, jitter: seq<int>, now: int)
    requires ValidJitter(jitter)
    requires q.ingredients.Some? && q.ingredients.value != ""
    requires forall i :: 0 <= i < |q.ingredients.value| ==> q.ingredients.value[i] == ','
    requires Candidates(primary, secondary) == Some([])
    ensures var r := SearchRoute(q, primary, secondary, details, jitter, now);
      && r.Success?
      && r.body.ingredients == []
      && |r.body.recipes| == 2
      && r.body.recipes[0].id == Some(1) && r.body.recipes[1].id == Some(2)
      && r.body.recipes[0].matchPercentage.None? && r.body.recipes[1].matchPercentage.None?
  {
    OnlyCommasYieldNothing(q.ingredients.value);
    RouteReply(q, primary, secondary, details, jitter, now);
    var recs := CandidateRecords([], [], details, jitter, now);
    FallbackRecords([], details, jitter, now);
    assert !AllScored(recs) by {
      assert recs[0].matchPercentage.None?;
    }
  }
}
