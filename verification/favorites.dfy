/** The favourites page: the list filter, removing one favourite, clearing
    them all, and the statistics panel. Comparisons with a missing number are
    false, as they are in JavaScript (`undefined <= 30`). */
module Favorites {
  import opened Common
  import opened Records
  import opened FavoriteList
  import Detail
  import RecipeCard
  import RecipeModal

  /** `fav.readyInMinutes <= 30`. */
  predicate IsQuick(f: StoredRecipe) {
    f.readyInMinutes.Some? && f.readyInMinutes.value <= 30
  }

  /** `f.matchPercentage >= 80`. */
  predicate IsHighMatch(f: StoredRecipe) {
    f.matchPercentage.Some? && f.matchPercentage.value >= 80
  }

  /** Whether a favourite passes the selected filter: 'all' passes everything,
      'quick' and 'healthy' test the entry, any other value passes nothing. */
  predicate Passes(mode: string, f: StoredRecipe) {
    mode == "all" || (mode == "quick" && IsQuick(f)) || (mode == "healthy" && f.veryHealthy)
  }

  /** `filteredFavorites`. */
  function FilterFavorites(favs: seq<StoredRecipe>, mode: string): (r: seq<StoredRecipe>)
    ensures |r| <= |favs|
    ensures forall x :: x in r <==> x in favs && Passes(mode, x)
    decreases |favs|
  {
    if |favs| == 0 then []
    else (if Passes(mode, favs[0]) then [favs[0]] else []) + FilterFavorites(favs[1..], mode)
  }

  /** The view keeps order: filtering distributes over concatenation, so the
      view is a subsequence of the favourites. */
  lemma {:induction false} FilterAppend(a: seq<StoredRecipe>, b: seq<StoredRecipe>, mode: string)
    ensures FilterFavorites(a + b, mode) == FilterFavorites(a, mode) + FilterFavorites(b, mode)
    decreases |a|
  {
    if |a| == 0 {
      assert a + b == b;
    } else {
      var x, rest := a[0], a[1..];
      var h := if Passes(mode, x) then [x] else [];
      FilterAppend(rest, b, mode);
      HeadTail(a, b);
      FilterCons(x, rest + b, mode);
      FilterCons(x, rest, mode);
      AppendAssoc(h, FilterFavorites(rest, mode), FilterFavorites(b, mode));
    }
  }

  lemma FilterCons(x: StoredRecipe, rest: seq<StoredRecipe>, mode: string)
    ensures FilterFavorites([x] + rest, mode) == (if Passes(mode, x) then [x] else []) + FilterFavorites(rest, mode)
  {
    assert ([x] + rest)[1..] == rest;
  }

  /** The 'all' view is the whole list. */
  lemma {:induction false} FilterAll(favs: seq<StoredRecipe>)
    ensures FilterFavorites(favs, "all") == favs
    decreases |favs|
  {
    if |favs| > 0 {
      FilterAll(favs[1..]);
      assert favs == [favs[0]] + favs[1..];
    }
  }

  /** Filtering a filtered view again changes nothing. */
  lemma {:induction false} FilterIdempotent(favs: seq<StoredRecipe>, mode: string)
    ensures FilterFavorites(FilterFavorites(favs, mode), mode) == FilterFavorites(favs, mode)
    decreases |favs|
  {
    if |favs| > 0 {
      FilterIdempotent(favs[1..], mode);
      var rest := FilterFavorites(favs[1..], mode);
      if Passes(mode, favs[0]) {
        assert ([favs[0]] + rest)[1..] == rest;
      } else {
        assert FilterFavorites(favs, mode) == rest;
      }
    }
  }

  /** A view in which no entry passes is empty. */
  lemma {:induction false} FilterNonePass(favs: seq<StoredRecipe>, mode: string)
    requires forall i :: 0 <= i < |favs| ==> !Passes(mode, favs[i])
    ensures FilterFavorites(favs, mode) == []
    decreases |favs|
  {
    if |favs| > 0 {
      FilterNonePass(favs[1..], mode);
    }
  }

  /** Favourites stored by the recipe card or the modal never carry the
      healthy flag, so the 'healthy' filter shows none of them. */
  lemma HealthyFilterEmpty(favs: seq<StoredRecipe>)
    requires forall i :: 0 <= i < |favs| ==> !favs[i].veryHealthy
    ensures FilterFavorites(favs, "healthy") == []
  {
    FilterNonePass(favs, "healthy");
  }

  /** Entries stored by the card and by the modal both lack the flag. */
  lemma StoredEntriesNotHealthy(s: Summary, d: Detail.RecipeDetail)
    ensures !RecipeCard.CardEntry(s).veryHealthy
    ensures !RecipeModal.ModalEntry(d).veryHealthy
    ensures !Passes("healthy", RecipeCard.CardEntry(s)) && !Passes("healthy", RecipeModal.ModalEntry(d))
  {
  }

  /** `removeFavorite`. */
  function RemoveFavorite(favs: seq<StoredRecipe>, id: Option<int>): (r: seq<StoredRecipe>)
    ensures !HasId(r, id)
    ensures forall x :: x in r <==> x in favs && x.id != id
  {
    RemoveById(favs, id)
  }

  /** `clearAllFavorites`: nothing happens on an empty list (no question is
      asked); otherwise the list empties when the user confirms. */
  function ClearAllFavorites(favs: seq<StoredRecipe>, confirmed: bool): (r: seq<StoredRecipe>)
    ensures r == [] || r == favs
    ensures r == [] <==> favs == [] || confirmed
  {
    if |favs| == 0 then favs
    else if confirmed then []
    else favs
  }

  /** The "no favourites match" panel: favourites exist but none passes. */
  predicate NoMatchPanel(favs: seq<StoredRecipe>, mode: string) {
    |FilterFavorites(favs, mode)| == 0 && |favs| > 0
  }

  /** With any favourites, the panel never shows under 'all', and always
      shows under an unknown mode. */
  lemma NoMatchPanelModes(favs: seq<StoredRecipe>, mode: string)
    requires favs != []
    ensures !NoMatchPanel(favs, "all")
    ensures mode != "all" && mode != "quick" && mode != "healthy" ==> NoMatchPanel(favs, mode)
  {
    FilterAll(favs);
    if mode != "all" && mode != "quick" && mode != "healthy" {
      FilterNonePass(favs, mode);
    }
  }

  // ------------------------------------------------------------ statistics

  /** The "Quick Recipes" figure. */
  function QuickCount(favs: seq<StoredRecipe>): nat
    decreases |favs|
  {
    if |favs| == 0 then 0 else (if IsQuick(favs[0]) then 1 else 0) + QuickCount(favs[1..])
  }

  /** The "High Matches" figure. */
  function HighMatchCount(favs: seq<StoredRecipe>): (n: nat)
    ensures n <= |favs|
    decreases |favs|
  {
    if |favs| == 0 then 0 else (if IsHighMatch(favs[0]) then 1 else 0) + HighMatchCount(favs[1..])
  }

  /** The quick count is the size of the 'quick' view. */
  lemma {:induction false} QuickCountIsQuickView(favs: seq<StoredRecipe>)
    ensures QuickCount(favs) == |FilterFavorites(favs, "quick")|
    decreases |favs|
  {
    if |favs| > 0 {
      QuickCountIsQuickView(favs[1..]);
    }
  }

  /** The sum of the preparation times; None when some entry has none, which
      makes the JavaScript sum NaN. */
  function TotalReady(favs: seq<StoredRecipe>): (r: Option<int>)
    ensures r.None? <==> exists i :: 0 <= i < |favs| && favs[i].readyInMinutes.None?
    decreases |favs|
  {
    if |favs| == 0 then Some(0)
    else if favs[0].readyInMinutes.None? then None
    else
      var rest := TotalReady(favs[1..]);
      assert forall i :: 1 <= i < |favs| ==> favs[i] == favs[1..][i - 1];
      if rest.None? then None else Some(favs[0].readyInMinutes.value + rest.value)
  }

  /** The "Avg Time" figure, computed only once the page has favourites. */
  function AverageReady(favs: seq<StoredRecipe>): (r: Option<int>)
    requires favs != []
    ensures r.None? <==> exists i :: 0 <= i < |favs| && favs[i].readyInMinutes.None?
    ensures r.Some? ==> 2 * |favs| * r.value <= 2 * TotalReady(favs).value + |favs| < 2 * |favs| * (r.value + 1)
  {
    match TotalReady(favs)
    case None => None
    case Some(t) => Some(RoundDiv(t, |favs|))
  }

  /** A list of favourites that all take the same time averages to it. */
  lemma {:induction false} AverageOfEqualTimes(favs: seq<StoredRecipe>, t: int)
    requires favs != []
    requires forall i :: 0 <= i < |favs| ==> favs[i].readyInMinutes == Some(t)
    ensures AverageReady(favs) == Some(t)
  {
    TotalOfEqualTimes(favs, t);
    var n := |favs|;
    var r := AverageReady(favs).value;
    assert 2 * n * r <= 2 * (t * n) + n < 2 * n * (r + 1);
    if r < t {
      MulLe(2 * n, r + 1, t);
      assert false;
    }
    if r > t {
      MulLe(2 * n, t + 1, r);
      assert false;
    }
  }

  lemma {:induction false} TotalOfEqualTimes(favs: seq<StoredRecipe>, t: int)
    requires forall i :: 0 <= i < |favs| ==> favs[i].readyInMinutes == Some(t)
    ensures TotalReady(favs) == Some(t * |favs|)
    decreases |favs|
  {
    if |favs| > 0 {
      TotalOfEqualTimes(favs[1..], t);
      assert t * |favs| == t + t * (|favs| - 1);
    }
  }
}
