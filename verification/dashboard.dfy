/** The dashboard page: the ingredient tags the user builds up, the mood filter
    toggle, the search request it sends, and how the reply (or its failure)
    becomes the list of recipe cards. */
module Dashboard {
  import opened Common
  import opened Text
  import opened Records
  import opened Search

  /** The tags the page starts with. */
  const InitialTags: seq<string> := ["chicken", "rice", "tomato"]

  /** The mood filters offered, in display order. */
  const FilterKeys: seq<string> := ["quick", "healthy", "comfort", "spicy", "vegetarian", "sweet"]

  /** The recipes shown when a search finds nothing or fails. */
  const SampleRecipes: seq<Summary> := [
    Summary(Some(1), Some("Chicken Fried Rice"), "https://spoonacular.com/recipeImages/1-312x231.jpg",
            25, 4, Some(92), Flags(true, true, false, false, false, true, true)),
    Summary(Some(2), Some("Tomato Basil Pasta"), "https://spoonacular.com/recipeImages/2-312x231.jpg",
            20, 2, Some(85), Flags(true, true, false, true, true, true, true)),
    Summary(Some(3), Some("Vegetable Stir Fry"), "https://spoonacular.com/recipeImages/3-312x231.jpg",
            30, 3, Some(78), Flags(true, true, true, true, true, true, false))]

  /** Tags are non-empty, carry no surrounding white space, and are distinct. */
  predicate WellFormedTags(tags: seq<string>) {
    && (forall i :: 0 <= i < |tags| ==> tags[i] != "" && IsTrimmed(tags[i]))
    && (forall i, j :: 0 <= i < j < |tags| ==> tags[i] != tags[j])
  }

  lemma InitialTagsWellFormed()
    ensures WellFormedTags(InitialTags)
  {
  }

  datatype Key = Enter | Comma | OtherKey

  /** `handleAddIngredient`: on Enter or a comma the trimmed input becomes a
      new tag, unless it is empty or already a tag; the input box is cleared
      only when a tag is added. Returns the tags and the input box text. */
  function AddTag(tags: seq<string>, input: string, key: Key): (r: (seq<string>, string))
    ensures key == OtherKey ==> r == (tags, input)
    ensures key != OtherKey && Trim(input) != "" && Trim(input) !in tags ==> r == (tags + [Trim(input)], "")
    ensures key != OtherKey && (Trim(input) == "" || Trim(input) in tags) ==> r == (tags, input)
  {
    if key == OtherKey then (tags, input)
    else
      var value := Trim(input);
      if value != "" && value !in tags then (tags + [value], "") else (tags, input)
  }

  /** Adding a tag keeps the tags well formed and adds at most one. */
  lemma AddTagKeepsWellFormed(tags: seq<string>, input: string, key: Key)
    requires WellFormedTags(tags)
    ensures WellFormedTags(AddTag(tags, input, key).0)
    ensures |tags| <= |AddTag(tags, input, key).0| <= |tags| + 1
  {
    TrimIsTrimmed(input);
  }

  /** `splice(index, 1)` on a copy: a negative index counts from the end
      (clamped at 0), an index past the end removes nothing. */
  function RemoveAt(tags: seq<string>, index: int): (r: seq<string>)
    ensures 0 <= index < |tags| ==> r == tags[..index] + tags[index + 1..]
    ensures -|tags| <= index < 0 ==> r == tags[..|tags| + index] + tags[|tags| + index + 1..]
    ensures index >= |tags| ==> r == tags
    ensures |r| == if tags == [] || index >= |tags| then |tags| else |tags| - 1
  {
    var start := if index < 0 then (if |tags| + index < 0 then 0 else |tags| + index) else index;
    if start < |tags| then tags[..start] + tags[start + 1..] else tags
  }

  /** Removing a tag keeps the rest well formed. */
  lemma RemoveAtKeepsWellFormed(tags: seq<string>, index: int)
    requires WellFormedTags(tags)
    ensures WellFormedTags(RemoveAt(tags, index))
  {
    var r := RemoveAt(tags, index);
    var start := if index < 0 then (if |tags| + index < 0 then 0 else |tags| + index) else index;
    if start < |tags| {
      assert forall i :: 0 <= i < |r| ==> r[i] == (if i < start then tags[i] else tags[i + 1]);
    }
  }

  /** `clearAll` of the tags. */
  function ClearTags(tags: seq<string>): (r: seq<string>)
    ensures r == []
  {
    []
  }

  /** The mood filter toggle: choosing the selected filter deselects it,
      choosing another selects that one. */
  function ToggleFilter(selected: Option<string>, key: string): (r: Option<string>)
    ensures selected == Some(key) ==> r.None?
    ensures selected != Some(key) ==> r == Some(key)
  {
    if selected == Some(key) then None else Some(key)
  }

  /** Choosing the same filter twice restores the selection exactly when
      nothing or that same filter was selected. */
  lemma ToggleTwice(selected: Option<string>, key: string)
    ensures ToggleFilter(ToggleFilter(selected, key), key) == selected <==> selected.None? || selected == Some(key)
  {
  }

  // ------------------------------------------------------------ search

  datatype SearchStart = NeedIngredients(message: string) | Request(query: SearchQuery)

  /** `handleSearch` up to the request: no tags is an error notice, otherwise
      the tags joined by commas, the selected filter (an unset filter is not
      sent) and 15 results. */
  function StartSearch(tags: seq<string>, selected: Option<string>): (r: SearchStart)
    ensures r.NeedIngredients? <==> tags == []
    ensures r.NeedIngredients? ==> r.message == "Please add at least one ingredient"
    ensures r.Request? ==>
      r.query.ingredients == Some(Join(tags, ",")) && r.query.filter == selected && r.query.number == Some(15)
  {
    if |tags| == 0 then NeedIngredients("Please add at least one ingredient")
    else Request(SearchQuery(Some(Join(tags, ",")), selected, Some(15)))
  }

  lemma {:induction false} TrimNonEmptyKeeps(parts: seq<string>)
    requires forall i :: 0 <= i < |parts| ==> parts[i] != "" && IsTrimmed(parts[i]) && ',' !in parts[i]
    ensures TrimNonEmpty(parts) == parts
    decreases |parts|
  {
    if |parts| > 0 {
      TrimTrimmed(parts[0]);
      TrimNonEmptyKeeps(parts[1..]);
      assert parts == [parts[0]] + parts[1..];
    }
  }

  /** The server parses the request back into exactly the page's tags, when
      no tag contains a comma; such a request is never refused with a 400. */
  lemma TagsRoundTrip(tags: seq<string>, selected: Option<string>)
    requires tags != [] && WellFormedTags(tags)
    requires forall i :: 0 <= i < |tags| ==> ',' !in tags[i]
    ensures StartSearch(tags, selected).Request?
    ensures var q := StartSearch(tags, selected).query;
            q.ingredients.value != "" && ParseQuery(q) == Success(tags)
  {
    SplitJoin(tags, ',');
    TrimNonEmptyKeeps(tags);
  }

  /** The cards shown after a search: the reply's recipes when there are
      any, the samples otherwise, and the samples when the request fails
      (any error status or no answer). */
  function ShownRecipes(reply: Fetch<Option<seq<Summary>>>): (r: seq<Summary>)
    ensures reply.Fetched? && reply.data.Some? && reply.data.value != [] ==> r == reply.data.value
    ensures !(reply.Fetched? && reply.data.Some? && reply.data.value != []) ==> r == SampleRecipes
    ensures r != []
  {
    if reply.Fetched? && reply.data.Some? && |reply.data.value| > 0 then reply.data.value else SampleRecipes
  }

  /** End to end: the search route answers the page's request without a
      400, echoes the page's tags as the parsed ingredients, and its recipes
      are the cards shown; only when both provider calls fail does the page
      fall back to the samples. */
  lemma DashboardSearch(tags: seq<string>, selected: Option<string>,
                        primary: Fetch<Option<seq<Payload>>>, secondary: Fetch<Option<seq<Payload>>>,
                        details: map<int, Payload>, jitter: seq<int>, now: int)
    requires tags != [] && WellFormedTags(tags)
    requires forall i :: 0 <= i < |tags| ==> ',' !in tags[i]
    requires ValidJitter(jitter)
    ensures var r := SearchRoute(StartSearch(tags, selected).query, primary, secondary, details, jitter, now);
      && !(r.Failure? && r.status == 400)
      && (r.Failure? <==> primary.FetchFailed? && secondary.FetchFailed?)
      && (r.Success? ==> r.body.ingredients == tags && ShownRecipes(Fetched(Some(r.body.recipes))) == r.body.recipes)
      && (r.Failure? ==> ShownRecipes(FetchFailed) == SampleRecipes)
  {
    TagsRoundTrip(tags, selected);
  }
}
