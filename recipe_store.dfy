/**
 * The recipe store (project/src/store/recipeStore.ts): five fields and the seven
 * actions that rewrite them. Each action's new field values are computed by a
 * function of this module, about which the lemmas below state what the action
 * promises; the `Store` class updates its fields in place with those values.
 */
module RecipeStore {
  import opened Wrappers
  import opened RecipeTypes
  import opened Text
  import opened Lists

  // ======================================================= ingredients

  /** The key ingredient names are compared under: the lower-cased name. */
  function NameKey(i: Ingredient): string { Lower(i.name) }

  /** No two ingredients have case-insensitively equal names. */
  predicate UniqueNames(ings: seq<Ingredient>) { DistinctBy(ings, NameKey) }

  /** The lower-cased names of `ings`, as a set. */
  function NameKeys(ings: seq<Ingredient>): set<string> {
    set k | 0 <= k < |ings| :: NameKey(ings[k])
  }

  /**
   * `ings.some(item => item.name.toLowerCase() === name.toLowerCase())`: the
   * lower-cased `name` is one of the lower-cased names present.
   */
  predicate HasName(ings: seq<Ingredient>, name: string)
    ensures HasName(ings, name) <==> Lower(name) in NameKeys(ings)
  {
    exists k :: 0 <= k < |ings| && Lower(ings[k].name) == Lower(name)
  }

  /**
   * The ingredient list after `addIngredient(raw)`, with `freshId` the uuid it
   * draws: the earlier entries are kept, and at most one entry, carrying the
   * fresh id and a non-empty trimmed name, is appended.
   */
  function AddIngredientTo(ings: seq<Ingredient>, raw: string, freshId: string): (r: seq<Ingredient>)
    ensures |ings| <= |r| <= |ings| + 1 && r[..|ings|] == ings
    ensures |r| == |ings| + 1 ==> r[|ings|] == Ingredient(freshId, Trim(raw)) && Trim(raw) != []
  {
    var trimmed := Trim(raw);
    if trimmed == [] then ings
    else if HasName(ings, trimmed) then ings
    else ings + [Ingredient(freshId, trimmed)]
  }

  /**
   * An all-whitespace input, or one whose trimmed form matches an existing name
   * case-insensitively, changes nothing; any other input appends exactly one
   * ingredient carrying the fresh id and the trimmed name, after the untouched
   * earlier entries.
   */
  lemma AddIngredientEffect(ings: seq<Ingredient>, raw: string, freshId: string)
    ensures AllWhitespace(raw) ==> AddIngredientTo(ings, raw, freshId) == ings
    ensures !AllWhitespace(raw) && HasName(ings, Trim(raw)) ==> AddIngredientTo(ings, raw, freshId) == ings
    ensures !AllWhitespace(raw) && !HasName(ings, Trim(raw)) ==>
      AddIngredientTo(ings, raw, freshId) == ings + [Ingredient(freshId, Trim(raw))]
      && Trim(raw) != [] && !IsJsWhitespace(Trim(raw)[0]) && !IsJsWhitespace(Trim(raw)[|Trim(raw)| - 1])
  {
    TrimEmptyIff(raw);
  }

  /** Adding never creates two ingredients whose names differ only in case. */
  lemma AddIngredientKeepsUniqueNames(ings: seq<Ingredient>, raw: string, freshId: string)
    requires UniqueNames(ings)
    ensures UniqueNames(AddIngredientTo(ings, raw, freshId))
  {
    var trimmed := Trim(raw);
    if trimmed != [] && !HasName(ings, trimmed) {
      var x := Ingredient(freshId, trimmed);
      forall y | y in ings ensures NameKey(y) != NameKey(x) {
        var k :| 0 <= k < |ings| && ings[k] == y;
      }
      DistinctBySnoc(ings, x, NameKey);
    }
  }

  /**
   * Adding a name a second time, in any casing, changes nothing: once `raw` has
   * been added, adding any `raw2` whose trimmed, lower-cased form is the same is a no-op.
   */
  lemma AddIngredientIdempotent(ings: seq<Ingredient>, raw: string, id1: string, raw2: string, id2: string)
    requires Lower(Trim(raw2)) == Lower(Trim(raw))
    ensures var once := AddIngredientTo(ings, raw, id1);
      AddIngredientTo(once, raw2, id2) == once
  {
    var once := AddIngredientTo(ings, raw, id1);
    var t := Trim(raw);
    if t != [] {
      if HasName(ings, t) {
        var k :| 0 <= k < |ings| && Lower(ings[k].name) == Lower(t);
        assert Lower(once[k].name) == Lower(Trim(raw2));
      } else {
        assert once[|ings|].name == t;
        assert Lower(once[|ings|].name) == Lower(Trim(raw2));
      }
    } else {
      assert |Trim(raw2)| == |Lower(Trim(raw2))| == 0;
    }
  }

  /** `item => item.id !== id` for ingredients. */
  function IngredientIdIsNot(id: string): Ingredient -> bool { (i: Ingredient) => i.id != id }

  /** The ingredient list after `removeIngredient(id)`: no entry carries `id` any more. */
  function RemoveIngredientFrom(ings: seq<Ingredient>, id: string): (r: seq<Ingredient>)
    ensures |r| <= |ings|
    ensures forall k :: 0 <= k < |r| ==> r[k].id != id
  {
    Filter(ings, IngredientIdIsNot(id))
  }

  /**
   * Removing drops exactly the entries carrying `id`: none is left, every other
   * entry survives, and an id that is absent leaves the list unchanged.
   */
  lemma RemoveIngredientEffect(ings: seq<Ingredient>, id: string)
    ensures var r := RemoveIngredientFrom(ings, id);
      (forall k :: 0 <= k < |r| ==> r[k].id != id && r[k] in ings)
      && (forall k :: 0 <= k < |ings| && ings[k].id != id ==> ings[k] in r)
      && ((forall k :: 0 <= k < |ings| ==> ings[k].id != id) ==> r == ings)
  {
    if forall k :: 0 <= k < |ings| ==> ings[k].id != id {
      FilterKeepsAll(ings, IngredientIdIsNot(id));
    }
  }

  /**
   * Survivors keep their relative order: the entry at index `i` lands at the
   * number of surviving entries before it, and of two survivors the earlier
   * one stays first.
   */
  lemma RemoveIngredientKeepsOrder(ings: seq<Ingredient>, id: string, i: nat, j: nat)
    requires i < j < |ings| && ings[i].id != id && ings[j].id != id
    ensures var r := RemoveIngredientFrom(ings, id);
      var pi := |RemoveIngredientFrom(ings[..i], id)|;
      var pj := |RemoveIngredientFrom(ings[..j], id)|;
      pi < pj < |r| && r[pi] == ings[i] && r[pj] == ings[j]
  {
    FilterAt(ings, IngredientIdIsNot(id), i);
    FilterAt(ings, IngredientIdIsNot(id), j);
    FilterKeepsOrder(ings, IngredientIdIsNot(id), i, j);
  }

  /** Removing keeps names unique. */
  lemma RemoveIngredientKeepsUniqueNames(ings: seq<Ingredient>, id: string)
    requires UniqueNames(ings)
    ensures UniqueNames(RemoveIngredientFrom(ings, id))
  {
    FilterKeepsDistinct(ings, IngredientIdIsNot(id), NameKey);
  }

  // ========================================================= favorites

  /**
   * `!recipe.isFavorite`, where `!undefined` is `true`: the result is always
   * defined, and it is `true` exactly when the flag was not `true`.
   */
  function Negate(flag: Option<bool>): (r: Option<bool>)
    ensures r.Some?
    ensures r == Some(true) <==> flag != Some(true)
  {
    match flag
    case None => Some(true)
    case Some(b) => Some(!b)
  }

  /**
   * The history after `toggleFavoriteRecipe(id)`: same length and order, only the
   * entries carrying `id` change, and of those only the favorite flag, negated.
   */
  function FlipFavorite(rs: seq<Recipe>, id: string): (r: seq<Recipe>)
    ensures |r| == |rs|
    ensures forall k :: 0 <= k < |rs| ==>
      r[k] == if rs[k].id == id then rs[k].(isFavorite := Negate(rs[k].isFavorite)) else rs[k]
  {
    if rs == [] then []
    else
      var head := if rs[0].id == id then rs[0].(isFavorite := Negate(rs[0].isFavorite)) else rs[0];
      [head] + FlipFavorite(rs[1..], id)
  }

  /** `rs.findIndex(recipe => recipe.id === id)`: the first index carrying `id`, or -1. */
  function FindIndex(rs: seq<Recipe>, id: string): (r: int)
    ensures -1 <= r < |rs|
    ensures r == -1 <==> forall k :: 0 <= k < |rs| ==> rs[k].id != id
    ensures r >= 0 ==> rs[r].id == id && forall k :: 0 <= k < r ==> rs[k].id != id
  {
    if rs == [] then -1
    else if rs[0].id == id then 0
    else
      var i := FindIndex(rs[1..], id);
      if i == -1 then -1 else i + 1
  }

  /** `recipe => recipe.id !== id` for recipes. */
  function RecipeIdIsNot(id: string): Recipe -> bool { (r: Recipe) => r.id != id }

  /** `favs.filter(recipe => recipe.id !== id)`: no favorite carries `id` any more. */
  function RemoveRecipeFrom(favs: seq<Recipe>, id: string): (r: seq<Recipe>)
    ensures |r| <= |favs|
    ensures forall k :: 0 <= k < |r| ==> r[k].id != id
  {
    Filter(favs, RecipeIdIsNot(id))
  }

  /**
   * The favorites list after `toggleFavoriteRecipe(id)`, given the history
   * before it: `id` ends up among the favorites exactly when it was not there
   * and the history has a recipe with that id.
   */
  function ToggleFavorites(favs: seq<Recipe>, history: seq<Recipe>, id: string): (r: seq<Recipe>)
    ensures |r| <= |favs| + 1
    ensures FindIndex(r, id) >= 0 <==> FindIndex(favs, id) == -1 && FindIndex(history, id) >= 0
  {
    var updatedRecipes := FlipFavorite(history, id);
    FindIndexAfterFlip(history, id, id);
    if FindIndex(favs, id) >= 0 then RemoveRecipeFrom(favs, id)
    else
      var k := FindIndex(updatedRecipes, id);
      if k >= 0 then [updatedRecipes[k].(isFavorite := Some(true))] + favs else favs
  }

  /** Flipping flags keeps every id where it was, so the first match is found at the same index. */
  lemma FindIndexAfterFlip(rs: seq<Recipe>, id: string, other: string)
    ensures FindIndex(FlipFavorite(rs, id), other) == FindIndex(rs, other)
  {
    var f := FlipFavorite(rs, id);
    assert forall k :: 0 <= k < |rs| ==> f[k].id == rs[k].id;
    var i := FindIndex(rs, other);
    var j := FindIndex(f, other);
    if i >= 0 && j >= 0 {
      assert !(i < j) && !(j < i);
    }
  }

  /**
   * The three cases of the favorites update: an id already favored is removed
   * everywhere; otherwise a copy of the first history entry with that id, marked
   * favorite, is put in front; otherwise nothing changes.
   */
  lemma ToggleFavoritesCases(favs: seq<Recipe>, history: seq<Recipe>, id: string)
    ensures var r := ToggleFavorites(favs, history, id);
      (FindIndex(favs, id) >= 0 ==>
         r == RemoveRecipeFrom(favs, id)
         && (forall k :: 0 <= k < |r| ==> r[k].id != id && r[k] in favs)
         && (forall k :: 0 <= k < |favs| && favs[k].id != id ==> favs[k] in r))
      && (FindIndex(favs, id) == -1 && FindIndex(history, id) >= 0 ==>
         r == [history[FindIndex(history, id)].(isFavorite := Some(true))] + favs)
      && (FindIndex(favs, id) == -1 && FindIndex(history, id) == -1 ==> r == favs)
  {
    FindIndexAfterFlip(history, id, id);
  }

  /**
   * Toggling twice negates twice: every entry comes back, except that a matching
   * entry whose flag was undefined now carries `false`.
   */
  lemma FlipFavoriteTwice(rs: seq<Recipe>, id: string)
    ensures var r := FlipFavorite(FlipFavorite(rs, id), id);
      |r| == |rs|
      && forall k :: 0 <= k < |rs| ==>
           r[k] == if rs[k].id == id && rs[k].isFavorite == None then rs[k].(isFavorite := Some(false)) else rs[k]
  {
  }

  /** Where every matching entry has a defined flag, toggling twice restores the history exactly. */
  lemma FlipFavoriteTwiceRestores(rs: seq<Recipe>, id: string)
    requires forall k :: 0 <= k < |rs| && rs[k].id == id ==> rs[k].isFavorite.Some?
    ensures FlipFavorite(FlipFavorite(rs, id), id) == rs
  {
    FlipFavoriteTwice(rs, id);
    var r := FlipFavorite(FlipFavorite(rs, id), id);
    assert forall k :: 0 <= k < |rs| ==> r[k] == rs[k];
  }

  /**
   * Toggling twice an id that is in the history but not among the favorites
   * restores the favorites list exactly.
   */
  lemma ToggleFavoritesTwice(favs: seq<Recipe>, history: seq<Recipe>, id: string)
    requires FindIndex(favs, id) == -1 && FindIndex(history, id) >= 0
    ensures ToggleFavorites(ToggleFavorites(favs, history, id), FlipFavorite(history, id), id) == favs
  {
    ToggleFavoritesCases(favs, history, id);
    var c := history[FindIndex(history, id)].(isFavorite := Some(true));
    var once := [c] + favs;
    assert FindIndex(once, id) == 0;
    assert once[0] == c && once[1..] == favs;
    FilterKeepsAll(favs, RecipeIdIsNot(id));
  }

  /** Every favorite is marked favorite and no two favorites share an id. */
  predicate FavoritesValid(favs: seq<Recipe>) {
    (forall k :: 0 <= k < |favs| ==> favs[k].isFavorite == Some(true))
    && DistinctBy(favs, RecipeId)
  }

  /** The id of a recipe, as a key. */
  function RecipeId(r: Recipe): string { r.id }

  /** The favorites update keeps every favorite marked and the ids distinct. */
  lemma ToggleFavoritesKeepsValid(favs: seq<Recipe>, history: seq<Recipe>, id: string)
    requires FavoritesValid(favs)
    ensures FavoritesValid(ToggleFavorites(favs, history, id))
  {
    ToggleFavoritesCases(favs, history, id);
    var r := ToggleFavorites(favs, history, id);
    if FindIndex(favs, id) >= 0 {
      FilterKeepsDistinct(favs, RecipeIdIsNot(id), RecipeId);
      forall k | 0 <= k < |r| ensures r[k].isFavorite == Some(true) {
        var j :| 0 <= j < |favs| && favs[j] == r[k];
      }
    } else if FindIndex(history, id) >= 0 {
      var c := history[FindIndex(history, id)].(isFavorite := Some(true));
      forall y | y in favs ensures RecipeId(y) != RecipeId(c) {
        var j :| 0 <= j < |favs| && favs[j] == y;
      }
      DistinctByCons(c, favs, RecipeId);
    }
  }

  /**
   * Recipes with another id are neither added to nor removed from the
   * favorites, and keep their flag and position in the history.
   */
  lemma ToggleFavoritesSparesOthers(favs: seq<Recipe>, history: seq<Recipe>, id: string, x: Recipe)
    requires x.id != id
    ensures x in ToggleFavorites(favs, history, id) <==> x in favs
    ensures forall k :: 0 <= k < |history| && history[k].id != id ==> FlipFavorite(history, id)[k] == history[k]
  {
    ToggleFavoritesCases(favs, history, id);
    if FindIndex(favs, id) >= 0 && x in favs {
      var j :| 0 <= j < |favs| && favs[j] == x;
    }
  }

  /**
   * The history and the favorites agree: no two history entries share an id,
   * and a history entry is marked favorite exactly when its id is among the
   * favorites. The favorites may hold recipes the history no longer has, since
   * only the favorites are persisted.
   */
  predicate InStep(history: seq<Recipe>, favs: seq<Recipe>) {
    DistinctBy(history, RecipeId)
    && forall k :: 0 <= k < |history| ==>
         (history[k].isFavorite == Some(true) <==> FindIndex(favs, history[k].id) >= 0)
  }

  /** For an id other than the toggled one, membership among the favorites does not change. */
  lemma ToggleFavoritesOtherIds(favs: seq<Recipe>, history: seq<Recipe>, id: string, other: string)
    requires other != id
    ensures FindIndex(ToggleFavorites(favs, history, id), other) >= 0 <==> FindIndex(favs, other) >= 0
  {
    ToggleFavoritesCases(favs, history, id);
    var r := ToggleFavorites(favs, history, id);
    if FindIndex(favs, id) >= 0 {
      if FindIndex(favs, other) >= 0 {
        var j := FindIndex(favs, other);
        assert favs[j] in r;
      }
      if FindIndex(r, other) >= 0 {
        var j := FindIndex(r, other);
        assert r[j] in favs;
      }
    } else if FindIndex(history, id) >= 0 {
      assert r[1..] == favs;
      if FindIndex(favs, other) >= 0 {
        assert r[FindIndex(favs, other) + 1].id == other;
      }
    }
  }

  /** `toggleFavoriteRecipe` keeps the history and the favorites in step. */
  lemma ToggleFavoritesKeepsInStep(favs: seq<Recipe>, history: seq<Recipe>, id: string)
    requires InStep(history, favs)
    ensures InStep(FlipFavorite(history, id), ToggleFavorites(favs, history, id))
  {
    var h := FlipFavorite(history, id);
    var f := ToggleFavorites(favs, history, id);
    assert DistinctBy(h, RecipeId) by {
      forall i, j | 0 <= i < j < |h| ensures RecipeId(h[i]) != RecipeId(h[j]) {
        assert h[i].id == history[i].id && h[j].id == history[j].id;
      }
    }
    forall k | 0 <= k < |h| ensures h[k].isFavorite == Some(true) <==> FindIndex(f, h[k].id) >= 0 {
      if history[k].id == id {
        assert FindIndex(history, id) >= 0;
        assert h[k].isFavorite == Negate(history[k].isFavorite);
      } else {
        ToggleFavoritesOtherIds(favs, history, id, history[k].id);
      }
    }
  }

  /**
   * Toggling twice an id that is both in the history and among the favorites
   * restores the history exactly, and the favorites regain that history entry,
   * now at the front, with every other favorite kept in its order.
   */
  lemma ToggleFavoritesTwiceFavored(favs: seq<Recipe>, history: seq<Recipe>, id: string)
    requires InStep(history, favs)
    requires FindIndex(favs, id) >= 0 && FindIndex(history, id) >= 0
    ensures var h1 := FlipFavorite(history, id);
      FlipFavorite(h1, id) == history
      && ToggleFavorites(ToggleFavorites(favs, history, id), h1, id)
         == [history[FindIndex(history, id)]] + RemoveRecipeFrom(favs, id)
  {
    var h1 := FlipFavorite(history, id);
    var f1 := ToggleFavorites(favs, history, id);
    ToggleFavoritesCases(favs, history, id);
    assert f1 == RemoveRecipeFrom(favs, id);
    assert FindIndex(f1, id) == -1;
    FindIndexAfterFlip(history, id, id);
    ToggleFavoritesCases(f1, h1, id);
    var i := FindIndex(history, id);
    assert history[i].isFavorite == Some(true);
    assert h1[i].(isFavorite := Some(true)) == history[i];
    FlipFavoriteTwiceRestores(history, id);
  }

  /** A recipe that may join the history: a new id, and not marked favorite. */
  predicate FreshRecipe(r: Recipe, history: seq<Recipe>, favs: seq<Recipe>) {
    FindIndex(history, r.id) == -1 && FindIndex(favs, r.id) == -1 && r.isFavorite != Some(true)
  }

  /** Putting a fresh recipe at the front of the history keeps the two in step. */
  lemma PrependKeepsInStep(r: Recipe, history: seq<Recipe>, favs: seq<Recipe>)
    requires InStep(history, favs) && FreshRecipe(r, history, favs)
    ensures InStep([r] + history, favs)
  {
    forall y | y in history ensures RecipeId(y) != RecipeId(r) {
      var j :| 0 <= j < |history| && history[j] == y;
    }
    DistinctByCons(r, history, RecipeId);
    var h := [r] + history;
    forall k | 0 <= k < |h| ensures h[k].isFavorite == Some(true) <==> FindIndex(favs, h[k].id) >= 0 {
      if k > 0 { assert h[k] == history[k - 1]; }
    }
  }

  // ======================================================= preferences

  /** `item => item !== preference`. */
  function PreferenceIsNot(p: DietaryPreference): DietaryPreference -> bool { (q: DietaryPreference) => q != p }

  /** No preference occurs twice. */
  predicate NoDuplicates(prefs: seq<DietaryPreference>) { DistinctBy(prefs, Same) }

  /** The preference list after `toggleDietaryPreference(p)`: `p` is in it exactly when it was not before. */
  function TogglePreference(prefs: seq<DietaryPreference>, p: DietaryPreference): (r: seq<DietaryPreference>)
    ensures p in r <==> p !in prefs
  {
    if p in prefs then Filter(prefs, PreferenceIsNot(p)) else prefs + [p]
  }

  /**
   * Toggling flips the membership of `p` (every occurrence goes when present, it
   * is appended at the end when absent) and no other preference changes membership.
   */
  lemma TogglePreferenceMembership(prefs: seq<DietaryPreference>, p: DietaryPreference)
    ensures var r := TogglePreference(prefs, p);
      (p in r <==> p !in prefs)
      && (p !in prefs ==> r == prefs + [p])
      && (forall q :: q != p ==> (q in r <==> q in prefs))
  {
    var r := TogglePreference(prefs, p);
    if p in prefs {
      forall q | q != p && q in prefs ensures q in r {
        var k :| 0 <= k < |prefs| && prefs[k] == q;
      }
    }
  }

  /** Toggling keeps the preference list free of duplicates. */
  lemma TogglePreferenceKeepsNoDuplicates(prefs: seq<DietaryPreference>, p: DietaryPreference)
    requires NoDuplicates(prefs)
    ensures NoDuplicates(TogglePreference(prefs, p))
  {
    if p in prefs {
      FilterKeepsDistinct(prefs, PreferenceIsNot(p), Same);
    } else {
      DistinctBySnoc(prefs, p, Same);
    }
  }

  /**
   * Toggling twice restores membership of every preference, and restores the
   * list exactly when the preference was absent.
   */
  lemma TogglePreferenceTwice(prefs: seq<DietaryPreference>, p: DietaryPreference)
    ensures var r := TogglePreference(TogglePreference(prefs, p), p);
      (forall q :: q in r <==> q in prefs)
      && (p !in prefs ==> r == prefs)
  {
    TogglePreferenceMembership(prefs, p);
    TogglePreferenceMembership(TogglePreference(prefs, p), p);
    if p !in prefs {
      FilterConcat(prefs, [p], PreferenceIsNot(p));
      FilterKeepsAll(prefs, PreferenceIsNot(p));
      assert Filter([p], PreferenceIsNot(p)) == [];
      assert prefs + [] == prefs;
    }
  }

  /** The elements of a sequence, as a set. */
  function Elements(prefs: seq<DietaryPreference>): set<DietaryPreference> {
    set k | 0 <= k < |prefs| :: prefs[k]
  }

  /** A sequence without duplicates has as many elements as its set. */
  lemma {:induction false} ElementsCount(prefs: seq<DietaryPreference>)
    requires NoDuplicates(prefs)
    ensures |Elements(prefs)| == |prefs|
  {
    if prefs != [] {
      var rest := prefs[1..];
      assert NoDuplicates(rest) by {
        forall i, j | 0 <= i < j < |rest| ensures Same(rest[i]) != Same(rest[j]) {
          assert rest[i] == prefs[i + 1] && rest[j] == prefs[j + 1];
        }
      }
      ElementsCount(rest);
      assert Elements(prefs) == {prefs[0]} + Elements(rest) by {
        forall x | x in Elements(prefs) ensures x in {prefs[0]} + Elements(rest) {
          var k :| 0 <= k < |prefs| && prefs[k] == x;
          if k > 0 { assert rest[k - 1] == x; }
        }
      }
      assert prefs[0] !in Elements(rest);
    }
  }

  /** Without duplicates, the preference list holds at most the seven members of the enumeration. */
  lemma PreferencesBounded(prefs: seq<DietaryPreference>)
    requires NoDuplicates(prefs)
    ensures |prefs| <= |AllDietaryPreferences| == 7
  {
    ElementsCount(prefs);
    var all: set<DietaryPreference> := {Vegetarian, Vegan, GlutenFree, DairyFree, LowCarb, Keto, Paleo};
    assert Elements(prefs) <= all by {
      forall x | x in Elements(prefs) ensures x in all {
        match x
        case Vegetarian => case Vegan => case GlutenFree => case DairyFree =>
        case LowCarb => case Keto => case Paleo =>
      }
    }
    assert |all| == 7;
    SubsetCardinality(Elements(prefs), all);
  }

  /** A subset of a finite set of preferences is no larger than the set. */
  lemma SubsetCardinality(a: set<DietaryPreference>, b: set<DietaryPreference>)
    requires a <= b
    ensures |a| <= |b|
  {
    assert b == a + (b - a);
  }

  // ======================================================= persistence

  /**
   * The invariants of the store's state: ingredient names are unique up to
   * case, the favorites are marked and have distinct ids, the history is in
   * step with them, and no dietary preference occurs twice.
   */
  predicate StoreInvariant(ings: seq<Ingredient>, history: seq<Recipe>, favs: seq<Recipe>,
                           prefs: seq<DietaryPreference>) {
    UniqueNames(ings) && FavoritesValid(favs) && InStep(history, favs) && NoDuplicates(prefs)
  }

  /** `toggleFavoriteRecipe` keeps the store invariant. */
  lemma ToggleFavoriteKeepsInvariant(ings: seq<Ingredient>, history: seq<Recipe>, favs: seq<Recipe>,
                                     prefs: seq<DietaryPreference>, id: string)
    requires StoreInvariant(ings, history, favs, prefs)
    ensures StoreInvariant(ings, FlipFavorite(history, id), ToggleFavorites(favs, history, id), prefs)
  {
    ToggleFavoritesKeepsValid(favs, history, id);
    ToggleFavoritesKeepsInStep(favs, history, id);
  }

  /** What `partialize` hands to the persistence layer. */
  datatype PersistedState = PersistedState(favoriteRecipes: seq<Recipe>, dietaryPreferences: seq<DietaryPreference>)

  // ============================================================ store

  /** The store: five fields, updated in place by its actions. */
  class Store {
    var ingredients: seq<Ingredient>
    var recipes: seq<Recipe>
    var favoriteRecipes: seq<Recipe>
    var dietaryPreferences: seq<DietaryPreference>
    var isGenerating: bool

    /** The invariants every action keeps. */
    ghost predicate Valid()
      reads this
    {
      StoreInvariant(ingredients, recipes, favoriteRecipes, dietaryPreferences)
    }

    /** The initial state: every list empty, not generating. */
    constructor ()
      ensures ingredients == [] && recipes == [] && favoriteRecipes == [] && dietaryPreferences == []
      ensures !isGenerating
      ensures Valid()
    {
      ingredients := [];
      recipes := [];
      favoriteRecipes := [];
      dietaryPreferences := [];
      isGenerating := false;
    }

    /** `partialize`: the part of the state that is persisted, the favorites and the preferences. */
    function Partialize(): (p: PersistedState)
      reads this
      ensures p.favoriteRecipes == favoriteRecipes && p.dietaryPreferences == dietaryPreferences
    {
      PersistedState(favoriteRecipes, dietaryPreferences)
    }

    method AddIngredient(ingredient: string, freshId: string)
      modifies this
      ensures ingredients == AddIngredientTo(old(ingredients), ingredient, freshId)
      ensures recipes == old(recipes) && favoriteRecipes == old(favoriteRecipes)
      ensures dietaryPreferences == old(dietaryPreferences) && isGenerating == old(isGenerating)
      ensures old(Valid()) ==> Valid()
    {
      var trimmedIngredient := Trim(ingredient);
      if trimmedIngredient == [] {
        return;
      }
      var alreadyThere := HasName(ingredients, trimmedIngredient);
      if !alreadyThere {
        ingredients := ingredients + [Ingredient(freshId, trimmedIngredient)];
      }
      if old(Valid()) {
        AddIngredientKeepsUniqueNames(old(ingredients), ingredient, freshId);
      }
    }

    method RemoveIngredient(id: string)
      modifies this
      ensures ingredients == RemoveIngredientFrom(old(ingredients), id)
      ensures recipes == old(recipes) && favoriteRecipes == old(favoriteRecipes)
      ensures dietaryPreferences == old(dietaryPreferences) && isGenerating == old(isGenerating)
      ensures old(Valid()) ==> Valid()
    {
      if Valid() {
        RemoveIngredientKeepsUniqueNames(ingredients, id);
      }
      ingredients := RemoveIngredientFrom(ingredients, id);
    }

    method ClearIngredients()
      modifies this
      ensures ingredients == []
      ensures recipes == old(recipes) && favoriteRecipes == old(favoriteRecipes)
      ensures dietaryPreferences == old(dietaryPreferences) && isGenerating == old(isGenerating)
      ensures old(Valid()) ==> Valid()
    {
      ingredients := [];
    }

    /**
     * `generateRecipe`, as one atomic step given the generator's outcome: a
     * recipe is put at the front of the history and returned; an error leaves
     * the history alone and is passed on. The flag ends up false either way.
     */
    method GenerateRecipe(outcome: Result<Recipe>) returns (result: Result<Recipe>)
      modifies this
      ensures result == outcome
      ensures outcome.Ok? ==> recipes == [outcome.value] + old(recipes)
      ensures outcome.Err? ==> recipes == old(recipes)
      ensures !isGenerating
      ensures ingredients == old(ingredients) && favoriteRecipes == old(favoriteRecipes)
      ensures dietaryPreferences == old(dietaryPreferences)
      ensures old(Valid()) && (outcome.Ok? ==> FreshRecipe(outcome.value, old(recipes), old(favoriteRecipes)))
        ==> Valid()
    {
      if Valid() && outcome.Ok? && FreshRecipe(outcome.value, recipes, favoriteRecipes) {
        PrependKeepsInStep(outcome.value, recipes, favoriteRecipes);
      }
      isGenerating := true;
      match outcome
      case Ok(recipe) =>
        recipes := [recipe] + recipes;
        isGenerating := false;
        result := Ok(recipe);
      case Err(error) =>
        isGenerating := false;
        result := Err(error);
    }

    /**
     * `toggleFavoriteRecipe`: the history's flags are flipped and the favorites
     * updated by the three branches `ToggleFavorites` spells out.
     */
    method ToggleFavoriteRecipe(recipeId: string)
      modifies this
      ensures recipes == FlipFavorite(old(recipes), recipeId)
      ensures favoriteRecipes == ToggleFavorites(old(favoriteRecipes), old(recipes), recipeId)
      ensures ingredients == old(ingredients) && dietaryPreferences == old(dietaryPreferences)
      ensures isGenerating == old(isGenerating)
      ensures old(Valid()) ==> Valid()
    {
      if Valid() {
        ToggleFavoriteKeepsInvariant(ingredients, recipes, favoriteRecipes, dietaryPreferences, recipeId);
      }
      recipes, favoriteRecipes := FlipFavorite(recipes, recipeId), ToggleFavorites(favoriteRecipes, recipes, recipeId);
    }

    method ToggleDietaryPreference(preference: DietaryPreference)
      modifies this
      ensures dietaryPreferences == TogglePreference(old(dietaryPreferences), preference)
      ensures ingredients == old(ingredients) && recipes == old(recipes)
      ensures favoriteRecipes == old(favoriteRecipes) && isGenerating == old(isGenerating)
      ensures old(Valid()) ==> Valid()
    {
      if Valid() {
        TogglePreferenceKeepsNoDuplicates(dietaryPreferences, preference);
      }
      var present := preference in dietaryPreferences;
      if present {
        dietaryPreferences := Filter(dietaryPreferences, PreferenceIsNot(preference));
      } else {
        dietaryPreferences := dietaryPreferences + [preference];
      }
    }

    method SetIsGenerating(generating: bool)
      modifies this
      ensures isGenerating == generating
      ensures ingredients == old(ingredients) && recipes == old(recipes)
      ensures favoriteRecipes == old(favoriteRecipes) && dietaryPreferences == old(dietaryPreferences)
      ensures old(Valid()) ==> Valid()
    {
      isGenerating := generating;
    }
  }

  /**
   * Two stores persist the same thing exactly when their favorites and their
   * preferences agree: ingredients, history and the generating flag are not persisted.
   */
  lemma PartializeExact(a: Store, b: Store)
    ensures a.Partialize() == b.Partialize()
      <==> a.favoriteRecipes == b.favoriteRecipes && a.dietaryPreferences == b.dietaryPreferences
  {
  }
}
