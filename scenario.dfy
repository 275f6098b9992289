/**
 * A session end to end: an ingredient is added twice in two spellings and a
 * second one once, a recipe is generated from the two and put in the history,
 * and its favorite status is toggled on and off again.
 */
module Scenario {
  import opened Wrappers
  import opened RecipeTypes
  import opened Text
  import opened MockRecipeService
  import opened RecipeStore

  /**
   * Starting from no ingredients, adding `first`, then a spelling of it that
   * differs only in case and surrounding whitespace, then a different `second`
   * leaves exactly two ingredients, the trimmed `first` and the trimmed `second`.
   */
  lemma AddIngredientsScenario(first: string, respelled: string, second: string, id1: string, id2: string, id3: string)
    requires !AllWhitespace(first) && !AllWhitespace(second)
    requires Lower(Trim(respelled)) == Lower(Trim(first))
    requires Lower(Trim(second)) != Lower(Trim(first))
    ensures var a := AddIngredientTo([], first, id1);
      var b := AddIngredientTo(a, respelled, id2);
      var c := AddIngredientTo(b, second, id3);
      b == a == [Ingredient(id1, Trim(first))]
      && c == [Ingredient(id1, Trim(first)), Ingredient(id3, Trim(second))]
  {
    TrimEmptyIff(first);
    TrimEmptyIff(second);
    var a := AddIngredientTo([], first, id1);
    assert !HasName([], Trim(first));
    assert a == [Ingredient(id1, Trim(first))];
    AddIngredientIdempotent([], first, id1, respelled, id2);
    assert !HasName(a, Trim(second)) by {
      forall k | 0 <= k < |a| ensures Lower(a[k].name) != Lower(Trim(second)) {
        assert a[k].name == Trim(first);
      }
    }
    AddIngredientEffect(a, second, id3);
  }

  /**
   * Generating from two ingredients lists both "prepared as needed" among six
   * lines; once the recipe is in the history, toggling its favorite status puts
   * one marked copy in the favorites, and toggling again empties them.
   */
  lemma GenerateAndFavoriteScenario(x: Ingredient, y: Ingredient, templateIndex: nat, imageIndex: nat,
                                    id: string, createdAt: string)
    requires templateIndex < |RecipeTemplates| && imageIndex < |FoodImages|
    ensures var params := GenerateRecipeParams([x, y], None, None, None);
      var r := MockGenerateRecipe(params, templateIndex, imageIndex, id, createdAt);
      r.Ok?
      && r.value.ingredients[0] == x.name + ", prepared as needed"
      && r.value.ingredients[1] == y.name + ", prepared as needed"
      && |r.value.ingredients| == 6
      && var history := [r.value];
         var favs := ToggleFavorites([], history, id);
         |favs| == 1 && favs[0].isFavorite == Some(true)
         && ToggleFavorites(favs, FlipFavorite(history, id), id) == []
  {
    var params := GenerateRecipeParams([x, y], None, None, None);
    MockIngredientList(params, templateIndex, imageIndex, id, createdAt);
    MockCopiedFields(params, templateIndex, imageIndex, id, createdAt);
    var r := MockGenerateRecipe(params, templateIndex, imageIndex, id, createdAt).value;
    assert FindIndex([r], id) == 0;
    ToggleFavoritesCases([], [r], id);
    ToggleFavoritesTwice([], [r], id);
  }

  /**
   * A generated recipe whose uuid is new to the history and to the favorites
   * meets the hypothesis under which `generateRecipe` keeps the history and the
   * favorites in step: the generator never marks its recipes favorite.
   */
  lemma GeneratedRecipeIsFresh(params: GenerateRecipeParams, templateIndex: nat, imageIndex: nat,
                               id: string, createdAt: string, history: seq<Recipe>, favs: seq<Recipe>)
    requires templateIndex < |RecipeTemplates| && imageIndex < |FoodImages|
    requires |params.ingredients| >= 2
    requires FindIndex(history, id) == -1 && FindIndex(favs, id) == -1
    ensures var r := MockGenerateRecipe(params, templateIndex, imageIndex, id, createdAt);
      r.Ok? && FreshRecipe(r.value, history, favs)
  {
    MockCopiedFields(params, templateIndex, imageIndex, id, createdAt);
  }
}
