# Recipe finder: a Dafny model of its search, favourites and planner logic

This project models the core of a small recipe application.

The application has an Express back end and a React front end:
- The back end searches a recipe provider for the ingredients a user has. It scores every candidate by how many of its ingredients the user owns, fills in missing fields, and ranks the result. It also serves a recipe's detail view and rescales servings.
- A user-route module keeps favourites and saved meal plans per user, behind a bearer-token check.
- The front end keeps several pieces of state: an ingredient tag list with a mood filter, a favourites list in browser storage, and a seven-day × three-meal planner with its statistics and shopping list. A recipe card and a recipe modal read and change these.

The model turns every operation into a pure Dafny function over immutable data:
- recipes and favourites are datatypes;
- the planner is a `map<Day, map<Meal, Option<StoredRecipe>>>`;
- lists are `seq`;
- JavaScript's `x || d` on a number or string is `IntOr` / `TextOr`, with 0 and `""` falsy;
- a NaN score is `None`;
- `Math.round(t / c)` is the integer `(2t + c) / (2c)`.

Whatever the code receives from outside is a parameter:
- provider calls become `Fetch<T>` (`Fetched(data)` or `FetchFailed`);
- the random jitter becomes a sequence of integers in [0, 20);
- the clock becomes `now`;
- today's weekday becomes a `Day`;
- a `window.confirm` answer becomes a `bool`.

Modules follow the program's files:

| module | file | what it holds |
|---|---|---|
| `Common` | — | `Option`, `Fetch`, `Response`, `Min`, rounding, `||` defaults |
| `Text` | — | the JavaScript string built-ins the code relies on: `toLowerCase` (ASCII), `trim`, `includes`, `split`, `join`, decimal `parseInt` |
| `Records` | — | the provider payload, the list record, the stored favourite |
| `Matching` | `backend/routes/recipes.js` | `calculateMatchPercentage`, `extractIngredients` |
| `Search` | `backend/routes/recipes.js` | `GET /search`: query parsing, filter parameters, source fallback, synthesis, normalisation, jitter, ranking |
| `Detail` | `backend/routes/recipes.js` | `GET /:id` and `POST /:id/customize` |
| `Users` | `backend/routes/users.js` | `authenticate`, favourites and meal-plan routes |
| `FavoriteList` | (shared) | remove-by-id, append and "has id", as both the server and the browser do them |
| `Planner` | `frontend/src/pages/Planner.jsx` | the weekly grid, its edits, statistics, shopping list and grouping |
| `RecipeModal` | `frontend/src/components/RecipeModal.jsx` | missing ingredients, servings shortcut, favourite toggle, add to today's plan |
| `Dashboard` | `frontend/src/pages/Dashboard.jsx` | ingredient tags, filter toggle, the search request and its fallback |
| `Favorites` | `frontend/src/pages/Favorites.jsx` | the favourites page filter, removal and statistics |
| `RecipeCard` | `frontend/src/components/RecipeCard.jsx` | heart state and toggle, match colour, clamped percentage |

## Model

| member | source | states |
|---|---|---|
| Common.RoundDiv | frontend/src/pages/Planner.jsx:291-297 | the integer result is the nearest integer to t / c, halves rounding up, as `Math.round` does for a non-negative quotient; both arguments here are whole numbers, so the rounding is exact |
| Common.IntOr | backend/routes/recipes.js:219-222 | `x \|\| d` on a number: a present non-zero value is kept, an absent or zero value becomes the default |
| Common.TextOr | backend/routes/recipes.js:337-340 | `x \|\| d` on a string: a present non-empty value is kept, an absent or empty one becomes the default |
| Common.Min | frontend/src/components/RecipeCard.jsx:139 | `Math.min`: below both arguments and equal to one of them |
| Text.Lower | backend/routes/recipes.js:11-12 | `toLowerCase` keeps the length and maps each character to its lower-case form |
| Text.LowerIdempotent | backend/routes/recipes.js:25 | lower-casing an already lower-cased name changes nothing |
| Text.TrimIsTrimmed | backend/routes/recipes.js:43 | `trim` leaves no white space at either end |
| Text.TrimUnique | backend/routes/recipes.js:43 | trimming white-space padding around a trimmed string gives exactly that string |
| Text.TrimDecompose | backend/routes/recipes.js:11 | every string is white space, then its trimmed form, then white space |
| Text.TrimTrimmed | frontend/src/pages/Dashboard.jsx:78 | trimming a trimmed string changes nothing |
| Text.TrimIgnoresPadding | backend/routes/recipes.js:11-12 | extra white space around a string does not change its trimmed form |
| Text.Contains | frontend/src/components/RecipeModal.jsx:190-191 | `includes` holds exactly when the needle occurs at some position |
| Text.ContainsEmpty | frontend/src/components/RecipeModal.jsx:190-191 | every string includes the empty string |
| Text.Split | backend/routes/recipes.js:43 | `split` gives at least one piece and no piece holds the separator |
| Text.JoinSplit | backend/routes/recipes.js:43 | joining the pieces of a split with the separator gives back the string |
| Text.SplitJoin | frontend/src/pages/Dashboard.jsx:113 | splitting a join of separator-free pieces gives back the pieces |
| Text.SplitOnlySeparators | backend/routes/recipes.js:43 | a string of separators only splits into empty pieces only |
| Text.ParseInt | backend/routes/users.js:20 | `parseInt` is NaN exactly when no digit follows the leading white space and optional sign |
| Text.ParseNatToString | backend/routes/users.js:20 | `parseInt` reads back the decimal numeral of every natural number |
| Matching.MatchPercentage | backend/routes/recipes.js:10-20 | NaN exactly for an empty recipe list; otherwise a value in 0..100 that is the rounded share of distinct recipe tokens the user owns |
| Matching.RoundPercent | backend/routes/recipes.js:19 | `Math.round(m / n * 100)` for 0 <= m <= n is at most 100 and is the nearest integer, halves up |
| Matching.Matched | backend/routes/recipes.js:14-17 | the matched tokens never outnumber the recipe's distinct tokens |
| Matching.Distinct | backend/routes/recipes.js:12 | the recipe's token set is empty exactly when its list is |
| Matching.TokenSetEmpty | backend/routes/recipes.js:11-12 | a token set is empty exactly when its list is, since even an empty name gives a token |
| Matching.CountMatches | backend/routes/recipes.js:14-17 | the counting loop over the user's tokens yields the size of the intersection of the two token sets |
| Matching.ComputeMatchPercentage | backend/routes/recipes.js:10-20 | the loop-then-round computation agrees with the set definition of the score |
| Matching.MatchInvariant | backend/routes/recipes.js:11-12 | lists with the same token sets score the same |
| Matching.NormalizeVariant | backend/routes/recipes.js:11 | a name differing only in letter case and white-space padding gives the same token |
| Matching.MatchIgnoresCaseAndPadding | backend/routes/recipes.js:11-12 | changing letter case or padding of any names leaves the score unchanged |
| Matching.MatchIgnoresOrderAndDuplicates | backend/routes/recipes.js:11-12 | lists with the same elements, in any order and multiplicity, score the same |
| Matching.SelfMatchIsFull | backend/routes/recipes.js:10-20 | a non-empty user list scores 100 against its own lower-cased names |
| Matching.ExtractIngredients | backend/routes/recipes.js:23-32 | the lower-cased `extendedIngredients` names when present; else missed names then used names when both exist; else the empty list |
| Search.ParseIngredients | backend/routes/recipes.js:43 | every parsed ingredient is non-empty, trimmed and comma-free |
| Search.OnlyCommasYieldNothing | backend/routes/recipes.js:43 | a parameter made only of commas parses to the empty list |
| Search.ParseQuery | backend/routes/recipes.js:39-43 | 400 "Ingredients parameter is required" exactly when the parameter is missing or empty; otherwise the trimmed non-empty pieces |
| Search.ApplyFilter | backend/routes/recipes.js:57-80 | each of the six lower-cased filter names sets exactly its parameters; an absent, empty or unknown filter changes nothing; ingredients and number are never touched |
| Search.FilterIgnoresCase | backend/routes/recipes.js:58 | filter names differing only in letter case give the same parameters |
| Search.BuildParams | backend/routes/recipes.js:46-55 | the number is `min(number, 25)` with 15 as default, never above 25, and the ingredients are the parsed list joined by commas |
| Search.ParamsIngredientsRoundTrip | backend/routes/recipes.js:48 | splitting the joined ingredient parameter at commas gives back the parsed list |
| Search.IngredientRequest | backend/routes/recipes.js:87-95 | the ingredient search asks for 15 results |
| Search.GeneralQuery | backend/routes/recipes.js:102 | the fallback query is the first ingredient, or "food" when there is none; never empty |
| Search.Candidates | backend/routes/recipes.js:85-110 | the ingredient search's list when it answers, else the general search's results, else failure exactly when both calls fail; a missing list is empty |
| Search.SynthesisedRecipes | backend/routes/recipes.js:113-178 | exactly two recipes, ids 1 and 2, whose ingredients are the user's, one to one, with ids idx+1000 and idx+2000 |
| Search.WithFallback | backend/routes/recipes.js:113-115 | an empty candidate list is replaced by the two synthesised recipes, a non-empty one is kept |
| Search.SynthesisedScore | backend/routes/recipes.js:186-188 | a synthesised recipe scores 100 for a non-empty ingredient list and NaN for an empty one |
| Search.Jittered | backend/routes/recipes.js:196 | `min(score + j, 100)`: NaN stays NaN, never above 100, at least the capped score, exactly score + j below the cap |
| Search.ShownScore | backend/routes/recipes.js:186-196 | the shown score is NaN exactly when the payload has no ingredient names, and otherwise in 0..100 |
| Search.ShownScoreBounds | backend/routes/recipes.js:196 | the shown score lies between the base score and base + j, and never above 100 |
| Search.FromPayload | backend/routes/recipes.js:189-203 | a record from full details: id, title and flags copied, image, time and servings defaulted to the placeholder, 30 and 4 |
| Search.BasicRecord | backend/routes/recipes.js:232-252 | the record when the detail fetch fails: the same defaults, id defaulting to the clock, title to "Delicious Recipe", every flag false |
| Search.Source | backend/routes/recipes.js:185-214 | a candidate with full details is used as is; otherwise its fetched details when there are any; otherwise none |
| Search.NormaliseCandidate | backend/routes/recipes.js:183-253 | every candidate yields one record with non-empty image, non-zero time and servings, and a score in 0..100 or NaN |
| Search.NormaliseAll | backend/routes/recipes.js:182-254 | one record per candidate, in order, each with its own jitter |
| Search.CandidateRecords | backend/routes/recipes.js:183 | at most the first 15 candidates are normalised; the synthesised pair gives two |
| Search.Insert | backend/routes/recipes.js:258 | inserting adds exactly the one record |
| Search.InsertSorted | backend/routes/recipes.js:258 | inserting into a list sorted by non-increasing score keeps it sorted |
| Search.InsertWithScore | backend/routes/recipes.js:258 | insertion places the record after every earlier record of the same score |
| Search.SortDescCorrect | backend/routes/recipes.js:258 | the sort is a permutation, ordered by non-increasing score, stable among equal scores |
| Search.SortDescKeepsSorted | backend/routes/recipes.js:258 | sorting an already sorted list changes nothing |
| Search.Rank | backend/routes/recipes.js:258 | the reply order is a permutation of the records; sorted and stable when every score is a number; the input order otherwise |
| Search.SearchRoute | backend/routes/recipes.js:35-275 | 400 exactly for a missing or empty parameter; 500 exactly when both provider calls fail; otherwise 1 to 15 recipes, the count equal to their number, the parsed ingredients echoed |
| Search.RankedBody | backend/routes/recipes.js:258-265 | the success body counts its 1 to 15 recipes and echoes the ingredients |
| Search.RouteReply | backend/routes/recipes.js:258-265 | a successful reply is the ranked normalised candidates |
| Search.SearchRanksRecords | backend/routes/recipes.js:258-265 | the reply is a permutation of the candidate records, ranked when every score is a number |
| Search.FallbackRecords | backend/routes/recipes.js:113-253 | with no candidates the records are ids 1 and 2, scored 100 for a non-empty list and NaN for an empty one |
| Search.SearchFallbackReply | backend/routes/recipes.js:113-265 | with no candidates and a non-empty list the reply is exactly ids 1 then 2, both scored 100 |
| Search.SearchOnlyCommas | backend/routes/recipes.js:39-265 | a parameter of commas only passes the 400 check yet gets the two synthesised recipes with NaN scores, unsorted |
| Detail.MockRecipe | backend/routes/recipes.js:300-330 | the stand-in recipe when the provider fails: the parsed id, "Recipe #id", 30 minutes, 4 servings, two ingredients |
| Detail.Transform | backend/routes/recipes.js:334-362 | id, title, time and servings copied; image, summary, credits and source URL defaulted, never empty; lists default to empty and nutrition to four zero nutrients |
| Detail.TransformIdempotent | backend/routes/recipes.js:334-362 | transforming a transformed recipe again changes nothing |
| Detail.TransformKeepsCompletePayload | backend/routes/recipes.js:334-362 | a payload with every field present passes through the transform unchanged |
| Detail.GetRecipe | backend/routes/recipes.js:279-376 | a provider failure serves the transformed stand-in; a provider answer is transformed; 500 "Failed to fetch recipe details" exactly when the answer has no body |
| Detail.MockForNumericId | backend/routes/recipes.js:300-330 | for a numeric id the stand-in served has that id, its title, 30 minutes, 4 servings and two ingredients |
| Detail.ScaleAll | backend/routes/recipes.js:398-402 | one scaled entry per ingredient, in order, each the ingredient scaled by the same factor |
| Detail.ScaleAmount | backend/routes/recipes.js:396-402 | the scaled amount is the nearest hundredth to amount × new / original, halves up; NaN without an amount or count; ±Infinity or NaN for a zero count, by the sign of the product |
| Detail.ScaleIngredient | backend/routes/recipes.js:399-403 | the spread keeps id, name and unit; the display text is always rebuilt; the amount stays a number exactly when it is finite |
| Detail.ScaleWholeAmount | backend/routes/recipes.js:401-402 | a whole amount scaled by a factor that divides it evenly prints as that whole number, then the unit and the name |
| Detail.Customize | backend/routes/recipes.js:379-417 | 400 "Valid servings number required" exactly for a missing or below-1 count; 500 "Failed to customize recipe" exactly when the fetch fails or has no ingredients; otherwise the factor is new over `servings \|\| 4` and every ingredient is scaled by it |
| Detail.CustomizeToSameIsIdentity | backend/routes/recipes.js:395-402 | asking for the recipe's own servings gives a factor of one and keeps every ingredient's name |
| Detail.CustomizeDoubledExample | backend/routes/recipes.js:395-402 | a recipe of 2 cups and 1 tbsp for 4 servings, customised to 8, reads "4 cups ingredient 1" and "2 tbsp ingredient 2" |
| FavoriteList.RemoveById | frontend/src/pages/Favorites.jsx:20 | the filter drops every entry with the id and keeps every other entry |
| FavoriteList.RemoveByIdSplits | frontend/src/pages/Favorites.jsx:20 | removal keeps the other entries with their multiplicity and drops exactly the entries with the id |
| FavoriteList.RemoveByIdNoop | frontend/src/pages/Favorites.jsx:20 | removing an id no entry has changes nothing |
| FavoriteList.RemoveByIdIdempotent | frontend/src/pages/Favorites.jsx:20 | removing twice is removing once |
| FavoriteList.Append | frontend/src/components/RecipeCard.jsx:21-29 | `push` keeps the list as a prefix and adds the entry last |
| FavoriteList.AddThenRemove | frontend/src/components/RecipeCard.jsx:15-31 | appending an entry with a new id and removing that id restores the list |
| Users.Token | backend/routes/users.js:9 | no header gives no token, and a token never contains a space |
| Users.FindUser | backend/routes/users.js:21 | `find` gives the first user with the id, or nothing exactly when no user has it |
| Users.Authenticate | backend/routes/users.js:8-31 | 401 "Authentication required" exactly for a missing or empty token; 401 "Invalid user" when it is no number or names nobody; otherwise the first user with that id |
| Users.EmptyTableRefusesAll | backend/routes/users.js:5 | with the table the server starts with, every request is refused with 401 |
| Users.BearerAuthenticates | backend/routes/users.js:9-21 | the header "Bearer n" signs in the first user whose id is n |
| Users.AuthenticateOnlyReadsIds | backend/routes/users.js:20-21 | authentication depends only on the users' ids, so routes that change favourites or plans keep the same user signed in |
| Users.GetFavorites | backend/routes/users.js:35-40 | the signed-in user's favourites, or an empty list |
| Users.AddFavorite | backend/routes/users.js:43-81 | after authentication: 400 without a recipe id; 500 when the user has no list; 400 when the id is already listed; otherwise exactly that one entry is appended to that user and no other user changes; failures change nothing |
| Users.AddFavoriteKeepsDistinct | backend/routes/users.js:54-72 | adding keeps every user's ids distinct, and the list then read back is the reply |
| Users.RemoveFavorite | backend/routes/users.js:84-103 | after authentication: 500 when the user has no list; otherwise every entry with the parsed id goes, and a non-numeric id removes nothing |
| Users.AddThenRemoveFavorite | backend/routes/users.js:43-103 | adding a new favourite and deleting it by its numeral restores the table |
| Users.GetMealPlans | backend/routes/users.js:106-111 | the signed-in user's saved weeks, or none |
| Users.SaveMealPlan | backend/routes/users.js:114-144 | after authentication: 400 "Week and meals data required" for a missing or empty week or missing meals; 500 when the user has no plans; otherwise only that week is set, the other weeks and users unchanged |
| Users.SaveThenGet | backend/routes/users.js:106-144 | a saved week reads back through the get route, and saving it again changes nothing |
| Planner.InitialShape | frontend/src/pages/Planner.jsx:28-36 | the initial plan, the cleared plan and an empty load all have every day with three empty slots |
| Planner.SetSlot | frontend/src/pages/Planner.jsx:65-71 | setting a slot sets exactly that slot and leaves every other slot as it was |
| Planner.Load | frontend/src/pages/Planner.jsx:23-39 | an empty saved plan loads as all-empty; anything else loads as saved |
| Planner.Drop | frontend/src/pages/Planner.jsx:60-78 | a drop fills exactly the target slot and leaves the others; unreadable drag data changes nothing |
| Planner.ClearSlot | frontend/src/pages/Planner.jsx:80-89 | clearing empties exactly that slot |
| Planner.ClearDay | frontend/src/pages/Planner.jsx:91-103 | a confirmed clear empties the day's three slots and no other day's; an unconfirmed one changes nothing |
| Planner.ClearAll | frontend/src/pages/Planner.jsx:105-117 | a confirmed clear empties every slot; an unconfirmed one changes nothing |
| Planner.PlannedBounds | frontend/src/pages/Planner.jsx:269-279 | at most 21 planned meals and 7 full days, three planned meals per full day, and the collected list as long as the planned count |
| Planner.ClearAllEmpties | frontend/src/pages/Planner.jsx:105-117 | after a confirmed clear both figures are 0 |
| Planner.SlotChangeCount | frontend/src/pages/Planner.jsx:269-271 | changing one slot changes the planned count by exactly the change in that slot |
| Planner.DropCount | frontend/src/pages/Planner.jsx:60-78 | a drop into an empty slot adds one planned meal; into a filled slot, none |
| Planner.ClearSlotCount | frontend/src/pages/Planner.jsx:80-89 | clearing a filled slot removes one planned meal |
| Planner.DropThenClear | frontend/src/pages/Planner.jsx:60-89 | a drop into an empty slot followed by clearing it restores every slot |
| Planner.AverageTime | frontend/src/pages/Planner.jsx:291-297 | the average time is the total of `readyInMinutes \|\| 0` over the planned meals divided by their count `\|\| 1`, rounded to the nearest integer with halves up; 0 when nothing is planned |
| Planner.AverageWithinBounds | frontend/src/pages/Planner.jsx:291-297 | when every planned time lies in 0..t, so does the rounded average |
| Planner.GenerateShoppingList | frontend/src/pages/Planner.jsx:119-155 | the error "Add some meals to generate a shopping list" exactly when nothing is planned; otherwise the meal count and the fixed 12-item list |
| Planner.ShoppingListIgnoresMeals | frontend/src/pages/Planner.jsx:137-150 | any two non-empty plans give the same items |
| Planner.ItemLines | frontend/src/pages/Planner.jsx:204 | one "[ ] name - amount" line per item |
| Planner.DownloadLines | frontend/src/pages/Planner.jsx:203-214 | the downloaded text splits back into one line per item when no field holds a line break |
| Planner.GroupingAsWritten | frontend/src/pages/Planner.jsx:465-469 | the reduction from `{}` yields a plain object, and `.map` on a plain object throws, for every list |
| Planner.ReduceStep | frontend/src/pages/Planner.jsx:465-468 | one reducer step returns the same kind of value it was given |
| Planner.CallMap | frontend/src/pages/Planner.jsx:469 | calling `.map` throws exactly on a plain object; an array hands over its elements |
| Planner.ReduceFromEmptyObject | frontend/src/pages/Planner.jsx:465-468 | reducing from `{}` gives a plain object whose properties are the category groups |
| Planner.GroupingCorrected | frontend/src/pages/Planner.jsx:465-469 | with `Object.entries` the callback receives the category groups |
| Planner.ShoppingModalThrows | frontend/src/pages/Planner.jsx:119-155 | every generated list is non-empty, so opening the modal always reaches the throwing grouping, while the corrected grouping would show every item once under its category |
| Planner.GroupByCategoryCorrect | frontend/src/pages/Planner.jsx:465-469 | the corrected grouping keeps every item once, under its own category, each category once, and exactly the items' categories; the categories come in first-seen order, and each group holds its category's items in list order |
| Planner.GroupByCategoryOrder | frontend/src/pages/Planner.jsx:465-469 | the groups' categories are the items' categories in order of first appearance, and each group is exactly its category's items in list order |
| Planner.AddToGroupsPointwise | frontend/src/pages/Planner.jsx:466-468 | one reduction step pushes the item onto the end of its own category's group, leaves every other group as it was, and opens a last group for a new category |
| Planner.AddToGroupsFlatten | frontend/src/pages/Planner.jsx:465-468 | one reduction step adds exactly the item to the groups |
| Planner.AddToGroupsCategories | frontend/src/pages/Planner.jsx:465-468 | one reduction step opens a category at the end only if it is new |
| Planner.AddToGroupsWell | frontend/src/pages/Planner.jsx:465-468 | one reduction step keeps the groups well formed |
| RecipeModal.HasIngredient | frontend/src/components/RecipeModal.jsx:297-299 | an ingredient is owned exactly when, ignoring letter case, some user entry contains its name or is contained in it |
| RecipeModal.Missing | frontend/src/components/RecipeModal.jsx:188-193 | the missing list holds exactly the ingredients no user entry relates to, and is no longer than the list |
| RecipeModal.MissingAppend | frontend/src/components/RecipeModal.jsx:188-193 | the missing filter distributes over concatenation, so it keeps the ingredients' order |
| RecipeModal.MarkerComplementsMissing | frontend/src/components/RecipeModal.jsx:295-300 | the green marker shows exactly on the ingredients that are not missing |
| RecipeModal.NothingOwnedAllMissing | frontend/src/components/RecipeModal.jsx:188-193 | with no user ingredients every ingredient is missing |
| RecipeModal.EmptyEntryMissesNothing | frontend/src/components/RecipeModal.jsx:188-193 | an empty user entry relates to every name, so nothing is missing |
| RecipeModal.MissingAntitone | frontend/src/components/RecipeModal.jsx:188-193 | adding user ingredients never adds a missing ingredient |
| RecipeModal.RelatedIgnoresCase | frontend/src/components/RecipeModal.jsx:190-191 | the relation ignores the letter case of the name and is symmetric |
| RecipeModal.BulletLines | frontend/src/components/RecipeModal.jsx:99 | one "• original" line per missing ingredient |
| RecipeModal.CopyMissingLines | frontend/src/components/RecipeModal.jsx:91-102 | the copied text has one line per missing ingredient when no original text holds a line break |
| RecipeModal.InitialServings | frontend/src/components/RecipeModal.jsx:30 | the servings the modal opens with are never 0 |
| RecipeModal.ShownIngredients | frontend/src/components/RecipeModal.jsx:43-67 | equal servings show the recipe's ingredients unchanged; otherwise the server's scaled list as sent, or, when the call fails, every ingredient rescaled by servings over the recipe's count with a display text rebuilt |
| RecipeModal.ScalingPathsAgree | frontend/src/components/RecipeModal.jsx:49-64 | for a recipe with a non-zero serving count, the server's scaled list and the browser's fallback list are identical |
| RecipeModal.ScalingPathsWithoutServings | frontend/src/components/RecipeModal.jsx:57-62 | for a recipe without a serving count the server scales from 4 and keeps a number, while the fallback divides by the missing count and prints "NaN" |
| RecipeModal.OpeningShortcut | frontend/src/components/RecipeModal.jsx:30-46 | a recipe with a servings count opens on its own ingredients; one without opens at 4 and asks the server |
| RecipeModal.OpensAsFavorite | frontend/src/components/RecipeModal.jsx:33-34 | the heart starts filled exactly when a favourite has the parsed id; never for a non-numeric id |
| RecipeModal.ModalEntry | frontend/src/components/RecipeModal.jsx:78-84 | the stored entry has id, title, image, time and servings, and no score |
| RecipeModal.ToggleFavorite | frontend/src/components/RecipeModal.jsx:69-89 | a favourite loses every entry with its id; otherwise one entry is appended; the heart flips |
| RecipeModal.ToggleTwice | frontend/src/components/RecipeModal.jsx:69-89 | toggling a new favourite on and off restores the list |
| RecipeModal.SlotEntry | frontend/src/components/RecipeModal.jsx:117-121 | the plan entry has id, title and image only |
| RecipeModal.FirstFree | frontend/src/components/RecipeModal.jsx:113-114 | the first empty slot in breakfast, lunch, dinner order; none exactly when the day is full |
| RecipeModal.AddToMealPlan | frontend/src/components/RecipeModal.jsx:104-127 | a full day reports "All meal slots are filled for today"; otherwise only the first empty slot of today is filled |
| RecipeModal.AddToMealPlanCount | frontend/src/components/RecipeModal.jsx:104-127 | adding to a day that is not full adds exactly one planned meal |
| Dashboard.InitialTagsWellFormed | frontend/src/pages/Dashboard.jsx:10 | the initial tags are non-empty, trimmed and distinct |
| Dashboard.AddTag | frontend/src/pages/Dashboard.jsx:76-86 | Enter or comma appends the trimmed input when it is non-empty and new, and clears the box; otherwise nothing changes |
| Dashboard.AddTagKeepsWellFormed | frontend/src/pages/Dashboard.jsx:76-86 | adding keeps the tags non-empty, trimmed and distinct, and grows them by at most one |
| Dashboard.RemoveAt | frontend/src/pages/Dashboard.jsx:88-92 | `splice(i, 1)` removes exactly element i, counts a negative index from the end, and ignores an index past the end |
| Dashboard.RemoveAtKeepsWellFormed | frontend/src/pages/Dashboard.jsx:88-92 | removal keeps the tags well formed |
| Dashboard.ClearTags | frontend/src/pages/Dashboard.jsx:94-99 | clearing yields no tags |
| Dashboard.ToggleFilter | frontend/src/pages/Dashboard.jsx:255 | the active filter is cleared; any other becomes active |
| Dashboard.ToggleTwice | frontend/src/pages/Dashboard.jsx:255 | clicking a filter twice restores the selection exactly when nothing or that filter was selected |
| Dashboard.StartSearch | frontend/src/pages/Dashboard.jsx:101-118 | no tags reports "Please add at least one ingredient" and sends nothing; otherwise the comma-joined tags, the filter and 15 |
| Dashboard.TrimNonEmptyKeeps | backend/routes/recipes.js:43 | trimming and dropping empties leaves trimmed non-empty pieces as they are |
| Dashboard.TagsRoundTrip | frontend/src/pages/Dashboard.jsx:113 | the server parses the joined tags back into exactly the tags when none holds a comma |
| Dashboard.ShownRecipes | frontend/src/pages/Dashboard.jsx:119-131 | the reply's recipes when there are any; the three samples for an empty reply or a failed call |
| Dashboard.DashboardSearch | frontend/src/pages/Dashboard.jsx:101-135 | the page's request is never refused with 400; it fails exactly when both provider calls fail; on success it echoes the tags and its recipes are shown |
| Favorites.FilterFavorites | frontend/src/pages/Favorites.jsx:35-40 | the view holds exactly the favourites that pass: 'all' everything, 'quick' up to 30 minutes, 'healthy' the flagged ones, any other mode nothing |
| Favorites.FilterAppend | frontend/src/pages/Favorites.jsx:35-40 | the view distributes over concatenation, so it keeps the favourites' order |
| Favorites.FilterAll | frontend/src/pages/Favorites.jsx:36 | the 'all' view is the whole list |
| Favorites.FilterIdempotent | frontend/src/pages/Favorites.jsx:35-40 | filtering a view again changes nothing |
| Favorites.HealthyFilterEmpty | frontend/src/pages/Favorites.jsx:38 | favourites without the healthy flag never show under 'healthy' |
| Favorites.StoredEntriesNotHealthy | frontend/src/components/RecipeCard.jsx:21-29 | entries stored by the card or the modal carry no healthy flag |
| Favorites.RemoveFavorite | frontend/src/pages/Favorites.jsx:19-24 | every entry with the id goes and every other stays |
| Favorites.ClearAllFavorites | frontend/src/pages/Favorites.jsx:26-33 | the list empties exactly when it was empty or the user confirms; otherwise it is kept |
| Favorites.NoMatchPanelModes | frontend/src/pages/Favorites.jsx:189 | with favourites, the panel never shows under 'all' and always under an unknown mode |
| Favorites.HighMatchCount | frontend/src/pages/Favorites.jsx:118 | the high-match figure is at most the number of favourites |
| Favorites.QuickCountIsQuickView | frontend/src/pages/Favorites.jsx:106 | the quick figure is the size of the 'quick' view |
| Favorites.TotalReady | frontend/src/pages/Favorites.jsx:112 | the time sum is NaN exactly when some favourite has no time |
| Favorites.AverageReady | frontend/src/pages/Favorites.jsx:112 | NaN exactly when some time is missing; otherwise the sum over the count, rounded |
| Favorites.AverageOfEqualTimes | frontend/src/pages/Favorites.jsx:112 | favourites that all take t minutes average to t |
| RecipeCard.InitiallyFavorite | frontend/src/components/RecipeCard.jsx:6-9 | the heart starts filled exactly when some favourite has the card's id |
| RecipeCard.CardEntry | frontend/src/components/RecipeCard.jsx:21-29 | the stored entry has the six fields of the record, the score included |
| RecipeCard.ToggleFavorite | frontend/src/components/RecipeCard.jsx:11-33 | a favourite loses every entry with its id; otherwise one entry is appended; the heart flips |
| RecipeCard.ToggleTwiceRestores | frontend/src/components/RecipeCard.jsx:11-33 | for a card that is not a favourite, toggling twice restores the list and the heart |
| RecipeCard.ToggleRemovesAll | frontend/src/components/RecipeCard.jsx:15-18 | toggling off keeps exactly the entries with another id |
| RecipeCard.MatchColor | frontend/src/components/RecipeCard.jsx:35-37 | green exactly from 80, yellow exactly from 60 to 79, orange otherwise, NaN included |
| RecipeCard.MatchColorMonotone | frontend/src/components/RecipeCard.jsx:35-37 | a higher score never gets a less green colour |
| RecipeCard.DisplayedMatch | frontend/src/components/RecipeCard.jsx:139 | the width and figure are `min(score, 100)`: never above 100, the score itself exactly up to 100, and 0 for a score that arrives as null |
| RecipeCard.DisplayedMatchKeepsColor | frontend/src/components/RecipeCard.jsx:35-37 | the colour of the capped width is the colour of the score itself |

## Left out

- Provider HTTP calls, their timeouts and the `Promise.all` fan-out are not modelled. Each call's outcome is a `Fetch` parameter, and a candidate's detail fetch is a `details` map. Which calls happen concurrently does not change the result. Provider replies are assumed to have their documented shape: a complex-search reply without data (which throws at `response.data.results`, `backend/routes/recipes.js:107`) or a find-by-ingredients reply whose data is an object rather than an array (which throws at `recipes.slice`, 183) would both end in the route's 500 and are not modelled.
- `Math.random` is not modelled: the jitter is a parameter sequence with values in [0, 20).
- `Date.now`, `new Date().toISOString()` and the weekday lookup are not modelled. They are the parameters `now` and `today`. The `addedAt`, `savedAt` and `updatedAt` timestamps are not stored, because they only record the clock.
- Detail.ScaleAmount: an amount is the exact decimal the provider wrote, and the scaled amount is the exact product rounded to hundredths. JavaScript multiplies binary floating-point numbers first, so a product that lands just below a half hundredth can round down where the model rounds up. The same holds for `Detail.ScaleIngredient`, `Detail.ScaleAll`, `Detail.Customize` and `RecipeModal.ShownIngredients`. JavaScript's exponent notation for very large or very small numbers is not modelled; the scale factor in the reply is kept as an exact fraction.
- Matching.RoundPercent: the share is rounded exactly, halves up. JavaScript computes `m / n * 100` in binary floating point first, and for some shares the product falls just below the half: 23 of 40 gives 57.49999999999999, which JavaScript rounds to 57 where the model gives 58, and 29 of 200 gives 14 where the model gives 15. Away from these near-half shares the two agree.
- Matching.MatchPercentage: inherits the exact rounding of `Matching.RoundPercent`, so for near-half shares such as 23 of 40 its score is one above the score JavaScript computes.
- Text.Lower: only ASCII letters are lower-cased. JavaScript's full Unicode case mapping is not modelled.
- Text.ParseInt: only decimal numerals are read. Hexadecimal prefixes, `Infinity` and values beyond 2^53 are not modelled.
- Browser storage, JSON parsing of stored data, toasts, the clipboard, print windows, the Blob download and `window.confirm` are not modelled. A confirmation is a boolean parameter, and a failed parse of drag data is `None`.
- JSX rendering is not modelled. `server.js`, `Home.jsx`, `Layout.jsx` and `App.jsx` are not part of this model: they hold plumbing or markup only.
- Detail.Customize: the servings count is modelled as an optional integer. A non-numeric body value, which JavaScript would compare as NaN, is not modelled.
- Search.Rank: when some score is NaN, the JavaScript comparator is inconsistent and the engine's order is unspecified. The model keeps the input order in that case.
- Records.Ingredient: an ingredient always has a name. In the source a nameless one throws at `ing.name.toLowerCase()`. In `extractIngredients` (`backend/routes/recipes.js:25`, 29) the throw comes back through the detail `catch` (236), rejects `Promise.all` (182) and turns the search into a 500 (268-274). In the modal it throws while rendering the missing list (`frontend/src/components/RecipeModal.jsx:190`). So `Matching.ExtractIngredients`, `Search.NormaliseCandidate`, `Search.SearchRoute` and `RecipeModal.Missing` are stated only for named ingredients.
- Detail.Transform: the detail route copies each ingredient's `measures` object (`backend/routes/recipes.js:346`) and keeps no other provider field. `Records.Ingredient` has no `measures` field, because nothing in the model reads it. The same holds for the customisation reply (`Detail.ScaleIngredient`): its `...ingredient` spread (line 400) copies every field the provider sent, and the model keeps only the five fields of `Records.Ingredient`.
- Search.ParseQuery: query values are modelled as strings only. Express turns a repeated key (`?ingredients=a&ingredients=b`) or a bracketed key into an array or object. Such a value is truthy and passes the 400 check (`backend/routes/recipes.js:39`), then `ingredients.split` (43) throws.
- Search.SearchRoute: for the same reason, the route's "500 exactly when both provider calls fail" holds for string query values only. An array or object `ingredients`, or an array or object `filter` reaching `filter.toLowerCase()` (58), throws before any provider call and the catch (267-274) answers 500.
- Common.Option: `None` stands for a missing value and does not tell JSON null from undefined. A score the server could not compute is NaN, which reaches the browser as null; `RecipeCard.DisplayedMatch` treats that `None` as null. Favourites stored from cards and the modal leave a missing time or score undefined, which is how `Favorites.IsQuick` and `Favorites.TotalReady` treat `None`. A favourite that really held null would count as quick (`null <= 30`) and add 0 to the total; that is not modelled.
- Planner: the icon `X` used at `frontend/src/pages/Planner.jsx:456` and 562 is not among the icons imported on line 2. Rendering it is a ReferenceError, so the page throws as soon as any slot holds a recipe, and the shopping modal throws at its close button before it reaches its grouping. The model treats `X` as imported, as the other icons are, and does not model rendering.
- Planner keys are the seven weekday names only. A stored plan with other keys, which the page would ignore, is not modelled.
- Search.BuildParams: the provider parameters are computed but never sent. The request actually issued uses fixed parameters, modelled by `Search.IngredientRequest` and `Search.GeneralQuery`.
- Users.Authenticate: the server's users table is always empty, so every route answers 401. The routes are still modelled over an arbitrary table to state what they would do.
- Users.AddFavorite: a recipe body is modelled as a stored-favourite record. Other JSON shapes, such as string ids or extra fields, are not modelled.
- Planner.GroupByCategoryCorrect: the grouping of the concrete 12-item shopping list is not computed as a closed term. Only the general partition property is proved.
- The printed shopping list (`frontend/src/pages/Planner.jsx:180-184`) contains the same grouping expression as the modal and throws in the same way. Its HTML output is not modelled.

## Findings

| source | as written | input that shows it | evidently intended | confidence | as-written member | corrected member |
|---|---|---|---|---|---|---|
| frontend/src/pages/Planner.jsx:465-469 | `shoppingList.reduce(..., {})` builds a plain object keyed by category, and `.map` is then called on that object; a plain object has no `map`, so rendering throws a TypeError | with `X` imported as the other icons are (see "Left out"), any plan with one planned meal: generating the list gives 12 items and opens the modal, whose body evaluates the grouping. As written, the missing `X` throws a ReferenceError first | group the items by category, in first-seen order, and render each category with its items, as `Object.entries(...).map` would | medium (not executed) | Planner.GroupingAsWritten | Planner.GroupingCorrected |
