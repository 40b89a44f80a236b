/** The favourites list as the browser and the server keep it: an ordered list
    of recipe entries, identified by their `id` field. Adding appends, removing
    drops every entry with the id (`filter(fav => fav.id !== id)`), and "is a
    favourite" asks whether some entry has the id. Ids compare strictly, so an
    entry without an id matches only an absent id. */
module FavoriteList {
  import opened Common
  import opened Records

  /** `favorites.some(fav => fav.id === id)`. */
  predicate HasId(favs: seq<StoredRecipe>, id: Option<int>) {
    exists i :: 0 <= i < |favs| && favs[i].id == id
  }

  /** `favorites.filter(fav => fav.id !== id)`. */
  function RemoveById(favs: seq<StoredRecipe>, id: Option<int>): (r: seq<StoredRecipe>)
    ensures |r| <= |favs|
    ensures !HasId(r, id)
    ensures forall x :: x in r <==> x in favs && x.id != id
    decreases |favs|
  {
    if |favs| == 0 then []
    else if favs[0].id != id then [favs[0]] + RemoveById(favs[1..], id)
    else RemoveById(favs[1..], id)
  }

  /** The entries with a given id, in order. */
  function WithId(favs: seq<StoredRecipe>, id: Option<int>): seq<StoredRecipe>
    decreases |favs|
  {
    if |favs| == 0 then []
    else (if favs[0].id == id then [favs[0]] else []) + WithId(favs[1..], id)
  }

  /** Removing keeps every other entry, with its multiplicity, and drops
      exactly the entries with the id. */
  lemma {:induction false} RemoveByIdSplits(favs: seq<StoredRecipe>, id: Option<int>)
    ensures multiset(RemoveById(favs, id)) + multiset(WithId(favs, id)) == multiset(favs)
    ensures |RemoveById(favs, id)| == |favs| - |WithId(favs, id)|
    decreases |favs|
  {
    if |favs| > 0 {
      RemoveByIdSplits(favs[1..], id);
      assert favs == [favs[0]] + favs[1..];
    }
  }

  /** Removing an id that no entry has changes nothing. */
  lemma {:induction false} RemoveByIdNoop(favs: seq<StoredRecipe>, id: Option<int>)
    requires !HasId(favs, id)
    ensures RemoveById(favs, id) == favs
    decreases |favs|
  {
    if |favs| > 0 {
      assert favs[0].id != id;
      assert !HasId(favs[1..], id) by {
        forall i | 0 <= i < |favs[1..]|
          ensures favs[1..][i].id != id
        {
          assert favs[1..][i] == favs[i + 1];
        }
      }
      RemoveByIdNoop(favs[1..], id);
      assert favs == [favs[0]] + favs[1..];
    }
  }

  /** Removing twice is removing once. */
  lemma RemoveByIdIdempotent(favs: seq<StoredRecipe>, id: Option<int>)
    ensures RemoveById(RemoveById(favs, id), id) == RemoveById(favs, id)
  {
    RemoveByIdNoop(RemoveById(favs, id), id);
  }

  /** `favorites.push(entry)`. */
  function Append(favs: seq<StoredRecipe>, entry: StoredRecipe): (r: seq<StoredRecipe>)
    ensures |r| == |favs| + 1 && r[..|favs|] == favs && r[|favs|] == entry
    ensures HasId(r, entry.id)
  {
    favs + [entry]
  }

  lemma {:induction false} RemoveByIdAppend(favs: seq<StoredRecipe>, entry: StoredRecipe, id: Option<int>)
    ensures RemoveById(favs + [entry], id) == RemoveById(favs, id) + (if entry.id != id then [entry] else [])
    decreases |favs|
  {
    if |favs| == 0 {
      assert favs + [entry] == [entry];
      assert [entry][1..] == [];
    } else {
      assert (favs + [entry])[1..] == favs[1..] + [entry];
      RemoveByIdAppend(favs[1..], entry, id);
    }
  }

  /** Adding a recipe that is not yet a favourite and removing it again gives
      back the original list. */
  lemma AddThenRemove(favs: seq<StoredRecipe>, entry: StoredRecipe)
    requires !HasId(favs, entry.id)
    ensures RemoveById(Append(favs, entry), entry.id) == favs
  {
    RemoveByIdAppend(favs, entry, entry.id);
    RemoveByIdNoop(favs, entry.id);
  }
}
