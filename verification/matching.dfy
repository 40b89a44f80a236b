/** The ingredient match score of the search route (`calculateMatchPercentage`)
    and the ingredient-list extraction it is fed from (`extractIngredients`).

    Both sides of a comparison are reduced to a set of tokens, a token being
    the lower-cased, trimmed ingredient name. The score is the share of the
    recipe's distinct tokens that the user also has, as a rounded percentage;
    it is an exact comparison, never a substring one. */
module Matching {
  import opened Common
  import opened Text
  import opened Records

  /** `ing.toLowerCase().trim()`. */
  function Normalize(s: string): string {
    Trim(Lower(s))
  }

  /** `new Set(list.map(ing => ing.toLowerCase().trim()))`. */
  function TokenSet(xs: seq<string>): set<string> {
    set x | x in xs :: Normalize(x)
  }

  /** A token set is empty exactly when its list is: even the empty name
      contributes the empty token. */
  lemma TokenSetEmpty(xs: seq<string>)
    ensures TokenSet(xs) == {} <==> xs == []
  {
    if xs != [] {
      assert Normalize(xs[0]) in TokenSet(xs);
    }
  }

  /** r is `Math.round(m / n * 100)`: the integer nearest to 100 m / n, a
      half rounded up. */
  predicate IsRoundedPercent(r: int, m: int, n: int) {
    2 * n * r <= 200 * m + n < 2 * n * (r + 1)
  }

  /** `Math.round(m / n * 100)` for 0 <= m <= n, rounded exactly: the share
      times 100 rounded to the nearest integer, halves up. JavaScript rounds
      the floating-point product instead, which for some shares (23 of 40)
      falls just below the half. */
  function RoundPercent(m: nat, n: nat): (r: nat)
    requires 0 < n && m <= n
    ensures r <= 100
    ensures IsRoundedPercent(r, m, n)
  {
    var r := (200 * m + n) / (2 * n);
    PercentBound(m, n, r);
    r
  }

  lemma PercentBound(m: nat, n: nat, r: int)
    requires 0 < n && m <= n
    requires 2 * n * r <= 200 * m + n
    ensures r <= 100
  {
  }

  /** How many distinct user tokens the recipe holds. */
  function Matched(user: seq<string>, recipe: seq<string>): (m: nat)
    ensures m <= Distinct(recipe)
  {
    IntersectionBound(TokenSet(user), TokenSet(recipe));
    |TokenSet(user) * TokenSet(recipe)|
  }

  /** How many distinct tokens the recipe list has. */
  function Distinct(recipe: seq<string>): (n: nat)
    ensures n == 0 <==> recipe == []
  {
    TokenSetEmpty(recipe);
    |TokenSet(recipe)|
  }

  /** The match percentage of a recipe for a user: the rounded share of the
      recipe's distinct tokens that are among the user's tokens. An empty
      recipe list divides by zero, giving NaN, modelled as None. */
  function MatchPercentage(user: seq<string>, recipe: seq<string>): (r: Option<int>)
    ensures r.None? <==> recipe == []
    ensures r.Some? ==> 0 <= r.value <= 100
    ensures r.Some? ==> IsRoundedPercent(r.value, Matched(user, recipe), Distinct(recipe))
  {
    var n := Distinct(recipe);
    if n == 0 then None
    else Some(RoundPercent(Matched(user, recipe), n))
  }

  /** Matched user tokens never outnumber the recipe's distinct tokens. */
  lemma IntersectionBound(u: set<string>, rs: set<string>)
    ensures |u * rs| <= |rs|
  {
    assert rs == (u * rs) + (rs - u);
  }

  /** The `forEach` of `calculateMatchPercentage`: walks the user list, counting
      each distinct user token that the recipe set holds. */
  method CountMatches(user: seq<string>, recipeSet: set<string>) returns (count: nat)
    ensures count == |TokenSet(user) * recipeSet|
  {
    var seen: set<string> := {};
    count := 0;
    var i := 0;
    while i < |user|
      invariant 0 <= i <= |user|
      invariant seen == TokenSet(user[..i])
      invariant count == |seen * recipeSet|
    {
      var t := Normalize(user[i]);
      TokenSetPrefix(user, i);
      if t !in seen {
        CountStep(seen, t, recipeSet);
        if t in recipeSet {
          count := count + 1;
        }
        seen := seen + {t};
      }
      i := i + 1;
    }
    assert user[..|user|] == user;
  }

  /** Adding a token not seen before adds one to the count exactly when the
      recipe holds it. */
  lemma CountStep(seen: set<string>, t: string, recipeSet: set<string>)
    requires t !in seen
    ensures |(seen + {t}) * recipeSet| == |seen * recipeSet| + (if t in recipeSet then 1 else 0)
  {
    if t in recipeSet {
      assert (seen + {t}) * recipeSet == (seen * recipeSet) + {t};
    } else {
      assert (seen + {t}) * recipeSet == seen * recipeSet;
    }
  }

  lemma TokenSetPrefix(xs: seq<string>, i: nat)
    requires i < |xs|
    ensures TokenSet(xs[..i + 1]) == TokenSet(xs[..i]) + {Normalize(xs[i])}
  {
    assert xs[..i + 1] == xs[..i] + [xs[i]];
    TokenSetSnoc(xs[..i], xs[i]);
  }

  lemma TokenSetSnoc(xs: seq<string>, x: string)
    ensures TokenSet(xs + [x]) == TokenSet(xs) + {Normalize(x)}
  {
    forall z | z in TokenSet(xs + [x])
      ensures z in TokenSet(xs) + {Normalize(x)}
    {
      var y :| y in xs + [x] && Normalize(y) == z;
      if y != x {
        assert y in xs;
      }
    }
    forall z | z in TokenSet(xs)
      ensures z in TokenSet(xs + [x])
    {
      var y :| y in xs && Normalize(y) == z;
      assert y in xs + [x];
    }
    assert x in xs + [x];
  }

  /** The score as the route computes it: counting loop, then rounding. */
  method ComputeMatchPercentage(user: seq<string>, recipe: seq<string>) returns (r: Option<int>)
    ensures r == MatchPercentage(user, recipe)
  {
    var rs := TokenSet(recipe);
    TokenSetEmpty(recipe);
    if |rs| == 0 {
      r := None;
    } else {
      var m := CountMatches(user, rs);
      IntersectionBound(TokenSet(user), rs);
      r := Some(RoundPercent(m, |rs|));
    }
  }

  // ------------------------------------------------------------ invariance

  /** The score depends only on the two token sets: lists with the same
      tokens score the same, whatever their order, duplicates, letter case or
      surrounding white space. */
  lemma MatchInvariant(user: seq<string>, user': seq<string>, recipe: seq<string>, recipe': seq<string>)
    requires TokenSet(user) == TokenSet(user')
    requires TokenSet(recipe) == TokenSet(recipe')
    ensures MatchPercentage(user, recipe) == MatchPercentage(user', recipe')
  {
  }

  /** Re-casing the letters of a name and padding it with white space leaves
      its token unchanged. */
  lemma NormalizeVariant(a: string, p: string, c: string, q: string)
    requires Lower(c) == Lower(a)
    requires AllSpace(p) && AllSpace(q)
    ensures Normalize(p + c + q) == Normalize(a)
  {
    LowerAppend(p + c, q);
    LowerAppend(p, c);
    LowerKeepsSpace(p);
    LowerKeepsSpace(q);
    TrimIgnoresPadding(p, Lower(a), q);
  }

  /** Lists that are element-wise re-cased or re-padded versions of each other
      score the same. */
  lemma MatchIgnoresCaseAndPadding(user: seq<string>, user': seq<string>, recipe: seq<string>, recipe': seq<string>)
    requires |user'| == |user| && |recipe'| == |recipe|
    requires forall i :: 0 <= i < |user| ==> Normalize(user'[i]) == Normalize(user[i])
    requires forall i :: 0 <= i < |recipe| ==> Normalize(recipe'[i]) == Normalize(recipe[i])
    ensures MatchPercentage(user, recipe) == MatchPercentage(user', recipe')
  {
    PointwiseTokens(user, user');
    PointwiseTokens(recipe, recipe');
    MatchInvariant(user, user', recipe, recipe');
  }

  /** Element-wise equal tokens give equal token sets. */
  lemma PointwiseTokens(a: seq<string>, b: seq<string>)
    requires |a| == |b|
    requires forall i :: 0 <= i < |a| ==> Normalize(b[i]) == Normalize(a[i])
    ensures TokenSet(a) == TokenSet(b)
  {
    forall t | t in TokenSet(a)
      ensures t in TokenSet(b)
    {
      var i :| 0 <= i < |a| && Normalize(a[i]) == t;
      assert b[i] in b;
    }
    forall t | t in TokenSet(b)
      ensures t in TokenSet(a)
    {
      var i :| 0 <= i < |b| && Normalize(b[i]) == t;
      assert a[i] in a;
    }
  }

  /** Lists with the same elements, in any order and with any repetition,
      score the same. */
  lemma MatchIgnoresOrderAndDuplicates(user: seq<string>, user': seq<string>, recipe: seq<string>, recipe': seq<string>)
    requires forall x :: x in user <==> x in user'
    requires forall x :: x in recipe <==> x in recipe'
    ensures MatchPercentage(user, recipe) == MatchPercentage(user', recipe')
  {
    SameElementsSameTokens(user, user');
    SameElementsSameTokens(recipe, recipe');
    MatchInvariant(user, user', recipe, recipe');
  }

  lemma SameElementsSameTokens(a: seq<string>, b: seq<string>)
    requires forall x :: x in a <==> x in b
    ensures TokenSet(a) == TokenSet(b)
  {
  }

  /** A recipe whose names are the user's own ingredients, lower-cased, is a
      full match. */
  lemma SelfMatchIsFull(user: seq<string>)
    requires user != []
    ensures MatchPercentage(user, LowerAll(user)) == Some(100)
  {
    var rs := LowerAll(user);
    forall i | 0 <= i < |user|
      ensures Normalize(rs[i]) == Normalize(user[i])
    {
      LowerIdempotent(user[i]);
    }
    PointwiseTokens(user, rs);
    var t := TokenSet(user);
    assert t * t == t;
    assert Matched(user, rs) == Distinct(rs);
    FullPercent(Distinct(rs));
  }

  /** Every token matched is 100 percent. */
  lemma FullPercent(n: nat)
    requires n > 0
    ensures RoundPercent(n, n) == 100
  {
    var r := RoundPercent(n, n);
    if r < 100 {
      MulLe(2 * n, r + 1, 100);
      assert false;
    }
  }

  function LowerAll(xs: seq<string>): (r: seq<string>)
    ensures |r| == |xs|
    ensures forall i :: 0 <= i < |xs| ==> r[i] == Lower(xs[i])
  {
    seq(|xs|, i requires 0 <= i < |xs| => Lower(xs[i]))
  }

  // ------------------------------------------------------------ extraction

  /** `list.map(ing => ing.name.toLowerCase())`. */
  function LowerNames(xs: seq<Ingredient>): (r: seq<string>)
    ensures |r| == |xs|
    ensures forall i :: 0 <= i < |xs| ==> r[i] == Lower(xs[i].name)
  {
    seq(|xs|, i requires 0 <= i < |xs| => Lower(xs[i].name))
  }

  /** `extractIngredients`: the lower-cased names of the full ingredient list
      when the payload has one (even an empty one); otherwise, when both partial
      lists are present, the missed names followed by the used names; otherwise
      nothing. */
  function ExtractIngredients(p: Payload): (r: seq<string>)
    ensures p.extendedIngredients.Some? ==>
      |r| == |p.extendedIngredients.value|
      && forall i :: 0 <= i < |r| ==> r[i] == Lower(p.extendedIngredients.value[i].name)
    ensures p.extendedIngredients.None? && p.missedIngredients.Some? && p.usedIngredients.Some? ==>
      var missed := p.missedIngredients.value;
      var used := p.usedIngredients.value;
      && |r| == |missed| + |used|
      && (forall i :: 0 <= i < |missed| ==> r[i] == Lower(missed[i].name))
      && (forall j :: 0 <= j < |used| ==> r[|missed| + j] == Lower(used[j].name))
    ensures p.extendedIngredients.None? && !(p.missedIngredients.Some? && p.usedIngredients.Some?) ==> r == []
  {
    if p.extendedIngredients.Some? then LowerNames(p.extendedIngredients.value)
    else if p.missedIngredients.Some? && p.usedIngredients.Some? then
      LowerNames(p.missedIngredients.value + p.usedIngredients.value)
    else []
  }
}
