/** The user routes of the server: a bearer-token check in front of reading
    and changing a user's favourites and saved meal plans. The users table is
    an in-memory list; each route takes the table and, when it changes
    something, returns the new table. Timestamps (`addedAt`, `savedAt`,
    `updatedAt`) come from the clock and are not part of this model. */
module Users {
  import opened Common
  import opened Text
  import opened Records
  import opened FavoriteList
  import Planner

  /** A meal plan saved for one week. */
  datatype SavedWeek = SavedWeek(meals: Planner.Plan)

  /** A user record. The lists are optional because nothing guarantees a
      record carries them; a route that needs a missing one throws. */
  datatype User = User(id: int, favorites: Option<seq<StoredRecipe>>, mealPlans: Option<map<string, SavedWeek>>)

  /** A route's answer together with the table after the route. */
  datatype Reply<+T> = Reply(response: Response<T>, users: seq<User>)

  /** The token is the second space-separated word of the Authorization
      header, when there is one. */
  function Token(header: Option<string>): (t: Option<string>)
    ensures header.None? ==> t.None?
    ensures t.Some? ==> ' ' !in t.value
  {
    match header
    case None => None
    case Some(h) =>
      var words := Split(h, ' ');
      if |words| >= 2 then Some(words[1]) else None
  }

  /** `users.find(u => u.id === id)`, as a position in the table. */
  function FindUser(users: seq<User>, id: int): (r: Option<nat>)
    ensures r.None? <==> forall j :: 0 <= j < |users| ==> users[j].id != id
    ensures r.Some? ==> r.value < |users| && users[r.value].id == id
    ensures r.Some? ==> forall j :: 0 <= j < r.value ==> users[j].id != id
    decreases |users|
  {
    if |users| == 0 then None
    else if users[0].id == id then Some(0)
    else
      match FindUser(users[1..], id)
      case None => None
      case Some(k) => Some(k + 1)
  }

  /** The `authenticate` middleware: the position of the signed-in user, or
      a 401. A missing or empty token is "Authentication required"; a token
      that is not a number (NaN matches no id) or names nobody is "Invalid
      user". */
  function Authenticate(users: seq<User>, header: Option<string>): (r: Response<nat>)
    ensures r.Success? ==> r.body < |users|
    ensures r.Failure? ==> r.status == 401
    ensures r.Failure? && r.error == "Authentication required" <==> Token(header).None? || Token(header).value == ""
    ensures r.Success? <==>
      && Token(header).Some? && Token(header).value != ""
      && ParseInt(Token(header).value).Some?
      && FindUser(users, ParseInt(Token(header).value).value).Some?
    ensures r.Success? ==> Some(users[r.body].id) == ParseInt(Token(header).value)
    ensures r.Failure? && r.error != "Authentication required" ==> r.error == "Invalid user"
  {
    match Token(header)
    case None => Failure(401, "Authentication required")
    case Some(token) =>
      if token == "" then Failure(401, "Authentication required")
      else
        match ParseInt(token)
        case None => Failure(401, "Invalid user")
        case Some(id) =>
          match FindUser(users, id)
          case None => Failure(401, "Invalid user")
          case Some(i) => Success(i)
  }

  /** The table the server starts with is empty, so every request is
      refused before any route runs. */
  lemma EmptyTableRefusesAll(header: Option<string>)
    ensures Authenticate([], header).Failure? && Authenticate([], header).status == 401
  {
  }

  /** `Bearer <id>` signs in the first user with that id. */
  lemma BearerAuthenticates(users: seq<User>, n: nat)
    requires exists j :: 0 <= j < |users| && users[j].id == n
    ensures var r := Authenticate(users, Some("Bearer " + NatToString(n)));
      r.Success? && users[r.body].id == n && forall j :: 0 <= j < r.body ==> users[j].id != n
  {
    var s := NatToString(n);
    assert ' ' !in s by {
      forall i | 0 <= i < |s| ensures s[i] != ' ' {
        assert IsDigit(s[i]);
      }
    }
    assert "Bearer " + s == "Bearer" + [' '] + s;
    SplitAtSep("Bearer", s, ' ');
    SplitNoSep(s, ' ');
    ParseNatToString(n);
  }

  /** The table with the user at `i` replaced. */
  function Update(users: seq<User>, i: nat, u: User): (r: seq<User>)
    requires i < |users|
    ensures |r| == |users| && r[i] == u
    ensures forall j :: 0 <= j < |users| && j != i ==> r[j] == users[j]
  {
    users[i := u]
  }

  // ------------------------------------------------------------ favourites

  /** `GET /favorites`: the user's list, or an empty one. */
  function GetFavorites(users: seq<User>, header: Option<string>): (r: Response<seq<StoredRecipe>>)
    ensures r.Failure? <==> Authenticate(users, header).Failure?
    ensures r.Success? ==> r.body == users[Authenticate(users, header).body].favorites.GetOr([])
  {
    match Authenticate(users, header)
    case Failure(status, error) => Failure(status, error)
    case Success(i) => Success(users[i].favorites.GetOr([]))
  }

  /** `!recipe || !recipe.id`: no recipe, or an id that is absent or 0. */
  predicate LacksId(recipe: Option<StoredRecipe>) {
    recipe.None? || recipe.value.id.None? || recipe.value.id.value == 0
  }

  /** `POST /favorites`: after authentication, a recipe without an id is a
      400; a user without a list makes the lookup throw (500); a recipe
      whose id is already listed is a 400; otherwise it is appended. */
  function AddFavorite(users: seq<User>, header: Option<string>, recipe: Option<StoredRecipe>): (r: Reply<seq<StoredRecipe>>)
    ensures r.response.Failure? ==> r.users == users
    ensures Authenticate(users, header).Failure? ==> r.response == Failure(401, Authenticate(users, header).error)
    ensures Authenticate(users, header).Success? ==>
      var i := Authenticate(users, header).body;
      && (LacksId(recipe) ==> r.response == Failure(400, "Recipe data is required"))
      && (!LacksId(recipe) && users[i].favorites.None? ==> r.response == Failure(500, "Failed to add favorite"))
      && (!LacksId(recipe) && users[i].favorites.Some? && HasId(users[i].favorites.value, recipe.value.id) ==>
            r.response == Failure(400, "Recipe already in favorites"))
      && (!LacksId(recipe) && users[i].favorites.Some? && !HasId(users[i].favorites.value, recipe.value.id) ==>
            var favs := users[i].favorites.value + [recipe.value];
            r.response == Success(favs) && r.users == Update(users, i, users[i].(favorites := Some(favs))))
  {
    match Authenticate(users, header)
    case Failure(status, error) => Reply(Failure(status, error), users)
    case Success(i) =>
      if LacksId(recipe) then Reply(Failure(400, "Recipe data is required"), users)
      else
        match users[i].favorites
        case None => Reply(Failure(500, "Failed to add favorite"), users)
        case Some(favs) =>
          if HasId(favs, recipe.value.id) then Reply(Failure(400, "Recipe already in favorites"), users)
          else
            var updated := Append(favs, recipe.value);
            Reply(Success(updated), Update(users, i, users[i].(favorites := Some(updated))))
  }

  /** No two favourites share an id. */
  predicate DistinctIds(favs: seq<StoredRecipe>) {
    forall i, j :: 0 <= i < j < |favs| ==> favs[i].id != favs[j].id
  }

  /** Adding keeps every user's list free of repeated ids, and afterwards the
      user's list reads back as the reply. */
  lemma AddFavoriteKeepsDistinct(users: seq<User>, header: Option<string>, recipe: Option<StoredRecipe>)
    requires forall k :: 0 <= k < |users| && users[k].favorites.Some? ==> DistinctIds(users[k].favorites.value)
    ensures var r := AddFavorite(users, header, recipe);
      forall k :: 0 <= k < |r.users| && r.users[k].favorites.Some? ==> DistinctIds(r.users[k].favorites.value)
    ensures var r := AddFavorite(users, header, recipe);
      r.response.Success? ==> GetFavorites(r.users, header) == r.response
  {
    var r := AddFavorite(users, header, recipe);
    if r.response.Success? {
      var i := Authenticate(users, header).body;
      var favs := users[i].favorites.value;
      var id := recipe.value.id;
      assert forall j :: 0 <= j < |favs| ==> favs[j].id != id;
      AuthenticateOnlyReadsIds(users, r.users, header);
    }
  }

  /** Authentication looks only at the ids in the table. */
  lemma AuthenticateOnlyReadsIds(users: seq<User>, users': seq<User>, header: Option<string>)
    requires |users| == |users'|
    requires forall k :: 0 <= k < |users| ==> users[k].id == users'[k].id
    ensures Authenticate(users, header) == Authenticate(users', header)
  {
    match Token(header)
    case None =>
    case Some(token) =>
      if token != "" && ParseInt(token).Some? {
        FindUserOnlyReadsIds(users, users', ParseInt(token).value);
      }
  }

  lemma {:induction false} FindUserOnlyReadsIds(users: seq<User>, users': seq<User>, id: int)
    requires |users| == |users'|
    requires forall k :: 0 <= k < |users| ==> users[k].id == users'[k].id
    ensures FindUser(users, id) == FindUser(users', id)
    decreases |users|
  {
    if |users| > 0 && users[0].id != id {
      FindUserOnlyReadsIds(users[1..], users'[1..], id);
    }
  }

  /** `DELETE /favorites/:recipeId`: after authentication, a user without a
      list makes the filter throw (500); otherwise every entry with the
      parsed id goes. A recipe id that is not a number removes nothing,
      since no entry is identical to NaN. */
  function RemoveFavorite(users: seq<User>, header: Option<string>, recipeId: string): (r: Reply<seq<StoredRecipe>>)
    ensures r.response.Failure? ==> r.users == users
    ensures Authenticate(users, header).Failure? ==> r.response == Failure(401, Authenticate(users, header).error)
    ensures Authenticate(users, header).Success? ==>
      var i := Authenticate(users, header).body;
      && (users[i].favorites.None? ==> r.response == Failure(500, "Failed to remove favorite"))
      && (users[i].favorites.Some? ==>
            var kept := if ParseInt(recipeId).None? then users[i].favorites.value
                        else RemoveById(users[i].favorites.value, ParseInt(recipeId));
            r.response == Success(kept) && r.users == Update(users, i, users[i].(favorites := Some(kept))))
    ensures r.response.Success? && ParseInt(recipeId).Some? ==> !HasId(r.response.body, ParseInt(recipeId))
  {
    match Authenticate(users, header)
    case Failure(status, error) => Reply(Failure(status, error), users)
    case Success(i) =>
      match users[i].favorites
      case None => Reply(Failure(500, "Failed to remove favorite"), users)
      case Some(favs) =>
        var kept := match ParseInt(recipeId)
          case None => favs
          case Some(n) => RemoveById(favs, Some(n));
        Reply(Success(kept), Update(users, i, users[i].(favorites := Some(kept))))
  }

  /** Adding a new favourite and then deleting it by its id restores the
      table. */
  lemma AddThenRemoveFavorite(users: seq<User>, header: Option<string>, recipe: StoredRecipe, n: nat)
    requires recipe.id == Some(n) && n != 0
    requires Authenticate(users, header).Success?
    requires users[Authenticate(users, header).body].favorites.Some?
    requires !HasId(users[Authenticate(users, header).body].favorites.value, Some(n))
    ensures var added := AddFavorite(users, header, Some(recipe));
      && added.response.Success?
      && RemoveFavorite(added.users, header, NatToString(n)).users == users
  {
    var i := Authenticate(users, header).body;
    var favs := users[i].favorites.value;
    var added := AddFavorite(users, header, Some(recipe));
    AuthenticateOnlyReadsIds(users, added.users, header);
    ParseNatToString(n);
    AddThenRemove(favs, recipe);
    assert added.users[i := users[i]] == users;
  }

  // ------------------------------------------------------------ meal plans

  /** `GET /meal-plans`: the user's saved weeks, or none. */
  function GetMealPlans(users: seq<User>, header: Option<string>): (r: Response<map<string, SavedWeek>>)
    ensures r.Failure? <==> Authenticate(users, header).Failure?
    ensures r.Success? ==> r.body == users[Authenticate(users, header).body].mealPlans.GetOr(map[])
  {
    match Authenticate(users, header)
    case Failure(status, error) => Failure(status, error)
    case Success(i) => Success(users[i].mealPlans.GetOr(map[]))
  }

  /** `POST /meal-plans`: after authentication, a missing or empty week or
      missing meals is a 400; a user without saved plans makes the
      assignment throw (500); otherwise the week's entry is replaced. */
  function SaveMealPlan(users: seq<User>, header: Option<string>, week: Option<string>, meals: Option<Planner.Plan>): (r: Reply<map<string, SavedWeek>>)
    ensures r.response.Failure? ==> r.users == users
    ensures Authenticate(users, header).Failure? ==> r.response == Failure(401, Authenticate(users, header).error)
    ensures Authenticate(users, header).Success? ==>
      var i := Authenticate(users, header).body;
      && (week.None? || week.value == "" || meals.None? ==> r.response == Failure(400, "Week and meals data required"))
      && (week.Some? && week.value != "" && meals.Some? && users[i].mealPlans.None? ==>
            r.response == Failure(500, "Failed to save meal plan"))
      && (week.Some? && week.value != "" && meals.Some? && users[i].mealPlans.Some? ==>
            && r.response.Success?
            && week.value in r.response.body && r.response.body[week.value] == SavedWeek(meals.value)
            && r.response.body.Keys == users[i].mealPlans.value.Keys + {week.value}
            && (forall w :: w in users[i].mealPlans.value && w != week.value ==>
                  r.response.body[w] == users[i].mealPlans.value[w])
            && r.users == Update(users, i, users[i].(mealPlans := Some(r.response.body))))
  {
    match Authenticate(users, header)
    case Failure(status, error) => Reply(Failure(status, error), users)
    case Success(i) =>
      if week.None? || week.value == "" || meals.None? then Reply(Failure(400, "Week and meals data required"), users)
      else
        match users[i].mealPlans
        case None => Reply(Failure(500, "Failed to save meal plan"), users)
        case Some(plans) =>
          var saved := plans[week.value := SavedWeek(meals.value)];
          Reply(Success(saved), Update(users, i, users[i].(mealPlans := Some(saved))))
  }

  /** A saved week reads back through `GET /meal-plans`, and saving it again
      with the same meals changes nothing further. */
  lemma SaveThenGet(users: seq<User>, header: Option<string>, week: string, meals: Planner.Plan)
    requires Authenticate(users, header).Success?
    requires users[Authenticate(users, header).body].mealPlans.Some?
    requires week != ""
    ensures var saved := SaveMealPlan(users, header, Some(week), Some(meals));
      && GetMealPlans(saved.users, header) == saved.response
      && GetMealPlans(saved.users, header).body[week] == SavedWeek(meals)
      && SaveMealPlan(saved.users, header, Some(week), Some(meals)).users == saved.users
  {
    var saved := SaveMealPlan(users, header, Some(week), Some(meals));
    AuthenticateOnlyReadsIds(users, saved.users, header);
    var i := Authenticate(users, header).body;
    var plans := saved.response.body;
    assert plans[week := SavedWeek(meals)] == plans;
  }
}
