/**
 * The mock recipe generator (project/src/services/mockRecipeService.ts): three
 * fixed templates whose `{0}` and `{1}` placeholders are filled with the first
 * two ingredient names. The random template and image choice, the uuid and the
 * timestamp are parameters; the two-second delay is not modelled.
 */
module MockRecipeService {
  import opened Wrappers
  import opened RecipeTypes
  import opened Text

  /** A recipe template: everything of a recipe except what the generator supplies. */
  datatype RecipeTemplate = RecipeTemplate(
    title: string,
    description: string,
    instructions: seq<string>,
    healthTips: seq<string>,
    difficulty: Difficulty,
    prepTime: int,
    cookTime: int,
    servings: int,
    tags: seq<string>)

  /** The stock photographs a generated recipe is illustrated with. */
  const FoodImages: seq<string> := [
    "https://images.pexels.com/photos/1640772/pexels-photo-1640772.jpeg?auto=compress&cs=tinysrgb&w=1260&h=750&dpr=2",
    "https://images.pexels.com/photos/1092730/pexels-photo-1092730.jpeg?auto=compress&cs=tinysrgb&w=1260&h=750&dpr=2",
    "https://images.pexels.com/photos/1527603/pexels-photo-1527603.jpeg?auto=compress&cs=tinysrgb&w=1260&h=750&dpr=2",
    "https://images.pexels.com/photos/958545/pexels-photo-958545.jpeg?auto=compress&cs=tinysrgb&w=1260&h=750&dpr=2",
    "https://images.pexels.com/photos/1256875/pexels-photo-1256875.jpeg?auto=compress&cs=tinysrgb&w=1260&h=750&dpr=2",
    "https://images.pexels.com/photos/699953/pexels-photo-699953.jpeg?auto=compress&cs=tinysrgb&w=1260&h=750&dpr=2"
  ]

  const PastaTemplate := RecipeTemplate(
    "Pasta with {0} and {1}",
    "A delicious pasta dish made with fresh {0} and {1}, perfect for a quick weeknight dinner.",
    [
      "Bring a large pot of salted water to a boil.",
      "Add pasta and cook according to package instructions until al dente.",
      "While pasta is cooking, heat olive oil in a large pan over medium heat.",
      "Add {0} and cook until softened, about 5 minutes.",
      "Add {1} and cook for another 2-3 minutes.",
      "Drain pasta, reserving 1/4 cup of pasta water.",
      "Add pasta to the pan with the vegetables, along with the reserved pasta water.",
      "Toss to combine, season with salt and pepper to taste.",
      "Serve hot, garnished with fresh herbs if desired."
    ],
    [
      "Use whole grain pasta for added fiber and nutrients.",
      "Add more vegetables for extra vitamins and minerals.",
      "Use olive oil instead of butter for heart-healthy fats."
    ],
    Easy, 10, 20, 4,
    ["pasta", "quick", "dinner", "vegetarian"])

  const StirFryTemplate := RecipeTemplate(
    "{0} and {1} Stir-Fry",
    "A quick and healthy stir-fry featuring {0} and {1}, ready in under 30 minutes.",
    [
      "Prepare all ingredients before cooking. Slice {0} and {1} into bite-sized pieces.",
      "Heat oil in a wok or large frying pan over high heat.",
      "Add {0} and stir-fry for 2-3 minutes until beginning to soften.",
      "Add {1} and continue to stir-fry for another 2 minutes.",
      "Add sauce ingredients and toss to coat.",
      "Cook for 1-2 more minutes until everything is hot and well combined.",
      "Serve immediately over rice or noodles, garnished with green onions."
    ],
    [
      "Use brown rice instead of white rice for more fiber and nutrients.",
      "Add a variety of colorful vegetables for a wider range of vitamins.",
      "Limit sodium by using low-sodium soy sauce or tamari."
    ],
    Easy, 15, 10, 4,
    ["stir-fry", "quick", "dinner", "Asian"])

  const SaladTemplate := RecipeTemplate(
    "Roasted {0} and {1} Salad",
    "A hearty salad featuring roasted {0} and fresh {1}, perfect for lunch or a light dinner.",
    [
      "Preheat oven to 425°F (220°C).",
      "Toss {0} with olive oil, salt, and pepper on a baking sheet.",
      "Roast for 20-25 minutes until golden and tender, stirring halfway through.",
      "While {0} is roasting, prepare the dressing by whisking together olive oil, lemon juice, mustard, and honey.",
      "In a large bowl, combine fresh greens, {1}, and any other fresh vegetables.",
      "Add the roasted {0} to the salad while still warm.",
      "Drizzle with dressing, toss gently, and serve immediately."
    ],
    [
      "Add seeds or nuts for healthy fats and extra protein.",
      "Use a variety of colorful vegetables to maximize nutrient intake.",
      "Make your own dressing to control sugar and sodium content."
    ],
    Medium, 15, 25, 2,
    ["salad", "healthy", "lunch", "vegetables"])

  /** The templates the generator picks from at random. */
  const RecipeTemplates: seq<RecipeTemplate> := [PastaTemplate, StirFryTemplate, SaladTemplate]

  /** The message of the error thrown for fewer than two ingredients. */
  const NotEnoughIngredients: string := "Please add at least 2 ingredients"

  /** The four ingredient lines every recipe lists after the two main ingredients. */
  const StapleLines: seq<string> := ["Salt and pepper to taste", "Olive oil", "2 cloves garlic, minced", "1 onion, diced"]

  /** `s.replace('{0}', ing1).replace('{1}', ing2)`; a text without placeholders is kept as it is. */
  function Fill(s: string, ing1: string, ing2: string): (r: string)
    ensures IndexOf(s, "{0}").None? && IndexOf(s, "{1}").None? ==> r == s
  {
    ReplaceFirst(ReplaceFirst(s, "{0}", ing1), "{1}", ing2)
  }

  /** Every step filled with the two names, step for step. */
  function FillSteps(steps: seq<string>, ing1: string, ing2: string): (r: seq<string>)
    ensures |r| == |steps|
    ensures forall k :: 0 <= k < |steps| ==> r[k] == Fill(steps[k], ing1, ing2)
  {
    if steps == [] then [] else [Fill(steps[0], ing1, ing2)] + FillSteps(steps[1..], ing1, ing2)
  }

  /** One `"<name>, to taste"` line per ingredient, in order. */
  function ToTasteLines(extra: seq<Ingredient>): (r: seq<string>)
    ensures |r| == |extra|
    ensures forall k :: 0 <= k < |extra| ==> r[k] == extra[k].name + ", to taste"
  {
    if extra == [] then [] else [extra[0].name + ", to taste"] + ToTasteLines(extra[1..])
  }

  /**
   * The recipe's ingredient list for the user's ingredients: four lines more
   * than there are ingredients, with the staples at positions 2 to 5.
   */
  function RecipeIngredientLines(ingredients: seq<Ingredient>): (r: seq<string>)
    requires |ingredients| >= 2
    ensures |r| == |ingredients| + 4
    ensures r[2..6] == StapleLines
  {
    var head := [ingredients[0].name + ", prepared as needed", ingredients[1].name + ", prepared as needed"]
      + StapleLines;
    assert (head + ToTasteLines(ingredients[2..]))[2..6] == head[2..6];
    head + ToTasteLines(ingredients[2..])
  }

  /**
   * `mockGenerateRecipe(params)`, with the random template and image choice, the
   * fresh id and the creation time supplied by the caller. Fewer than two
   * ingredients throw; otherwise the chosen template is filled in.
   */
  function MockGenerateRecipe(params: GenerateRecipeParams, templateIndex: nat, imageIndex: nat,
                              id: string, createdAt: string): (r: Result<Recipe>)
    requires templateIndex < |RecipeTemplates|
    requires imageIndex < |FoodImages|
    ensures r.Err? <==> |params.ingredients| < 2
    ensures r.Err? ==> r.error == NotEnoughIngredients
  {
    var ingredients := params.ingredients;
    if |ingredients| < 2 then Err(NotEnoughIngredients)
    else
      var template := RecipeTemplates[templateIndex];
      var ing1 := ingredients[0].name;
      var ing2 := ingredients[1].name;
      Ok(Recipe(
        id,
        Fill(template.title, ing1, ing2),
        Fill(template.description, ing1, ing2),
        RecipeIngredientLines(ingredients),
        FillSteps(template.instructions, ing1, ing2),
        template.healthTips,
        template.prepTime,
        template.cookTime,
        template.servings,
        template.difficulty,
        FoodImages[imageIndex],
        template.tags + [ing1, ing2],
        Some(false),
        createdAt))
  }

  /**
   * The ingredient list of a generated recipe has n + 4 lines: the two main
   * ingredients "prepared as needed", the four staples, then every further
   * ingredient "to taste", in input order.
   */
  lemma MockIngredientList(params: GenerateRecipeParams, templateIndex: nat, imageIndex: nat,
                           id: string, createdAt: string)
    requires templateIndex < |RecipeTemplates| && imageIndex < |FoodImages|
    requires |params.ingredients| >= 2
    ensures var r := MockGenerateRecipe(params, templateIndex, imageIndex, id, createdAt);
      var ings := params.ingredients;
      r.Ok?
      && |r.value.ingredients| == |ings| + 4
      && r.value.ingredients[0] == ings[0].name + ", prepared as needed"
      && r.value.ingredients[1] == ings[1].name + ", prepared as needed"
      && r.value.ingredients[2..6] == StapleLines
      && (forall k :: 6 <= k < |ings| + 4 ==> r.value.ingredients[k] == ings[k - 4].name + ", to taste")
  {
    var ings := params.ingredients;
    var lines := RecipeIngredientLines(ings);
    var head := [ings[0].name + ", prepared as needed", ings[1].name + ", prepared as needed"] + StapleLines;
    assert lines == head + ToTasteLines(ings[2..]);
    assert lines[2..6] == head[2..6];
    forall k | 6 <= k < |ings| + 4 ensures lines[k] == ings[k - 4].name + ", to taste" {
      assert lines[k] == ToTasteLines(ings[2..])[k - 6];
    }
  }

  /**
   * Title, description and every instruction step are the chosen template's
   * text with the first `{0}` and then the first `{1}` replaced by the first two
   * ingredient names; the number of steps is the template's.
   */
  lemma MockFilledText(params: GenerateRecipeParams, templateIndex: nat, imageIndex: nat,
                       id: string, createdAt: string)
    requires templateIndex < |RecipeTemplates| && imageIndex < |FoodImages|
    requires |params.ingredients| >= 2
    ensures var r := MockGenerateRecipe(params, templateIndex, imageIndex, id, createdAt);
      var t := RecipeTemplates[templateIndex];
      var ing1 := params.ingredients[0].name;
      var ing2 := params.ingredients[1].name;
      r.Ok?
      && r.value.title == ReplaceFirst(ReplaceFirst(t.title, "{0}", ing1), "{1}", ing2)
      && r.value.description == ReplaceFirst(ReplaceFirst(t.description, "{0}", ing1), "{1}", ing2)
      && |r.value.instructions| == |t.instructions|
      && (forall k :: 0 <= k < |t.instructions| ==>
            r.value.instructions[k] == ReplaceFirst(ReplaceFirst(t.instructions[k], "{0}", ing1), "{1}", ing2))
  {
  }

  /**
   * Health tips, times, servings and difficulty are the template's; the tags are
   * the template's followed by the two names; the recipe is not a favorite and
   * carries the supplied id, image and timestamp.
   */
  lemma MockCopiedFields(params: GenerateRecipeParams, templateIndex: nat, imageIndex: nat,
                         id: string, createdAt: string)
    requires templateIndex < |RecipeTemplates| && imageIndex < |FoodImages|
    requires |params.ingredients| >= 2
    ensures var r := MockGenerateRecipe(params, templateIndex, imageIndex, id, createdAt);
      var t := RecipeTemplates[templateIndex];
      r.Ok?
      && r.value.healthTips == t.healthTips
      && r.value.prepTime == t.prepTime && r.value.cookTime == t.cookTime
      && r.value.servings == t.servings && r.value.difficulty == t.difficulty
      && r.value.tags == t.tags + [params.ingredients[0].name, params.ingredients[1].name]
      && |r.value.tags| == 6
      && r.value.isFavorite == Some(false)
      && r.value.id == id && r.value.imageUrl == FoodImages[imageIndex] && r.value.createdAt == createdAt
  {
  }

  /** The times, servings and difficulty a recipe may have. */
  predicate WellFormedRecipe(r: Recipe) {
    r.prepTime >= 0 && r.cookTime >= 0 && r.servings > 0
  }

  /** Every template has non-negative times, positive servings, an easy or medium difficulty and four tags. */
  lemma TemplatesWellFormed()
    ensures forall k :: 0 <= k < |RecipeTemplates| ==>
      var t := RecipeTemplates[k];
      t.prepTime >= 0 && t.cookTime >= 0 && t.servings > 0
      && (t.difficulty == Easy || t.difficulty == Medium) && |t.tags| == 4
  {
  }

  /** Every generated recipe is well formed, and never hard. */
  lemma MockRecipeWellFormed(params: GenerateRecipeParams, templateIndex: nat, imageIndex: nat,
                             id: string, createdAt: string)
    requires templateIndex < |RecipeTemplates| && imageIndex < |FoodImages|
    ensures var r := MockGenerateRecipe(params, templateIndex, imageIndex, id, createdAt);
      r.Ok? ==> WellFormedRecipe(r.value) && r.value.difficulty != Hard
  {
    TemplatesWellFormed();
  }

  /**
   * Filling a text of the form `p{0}m{1}q` whose `p` and `m` contain no `{`,
   * with a first name that has no `{` and names without `$`, gives `p ing1 m ing2 q`.
   */
  lemma FillTwoSlots(p: string, m: string, q: string, ing1: string, ing2: string)
    requires '{' !in p && '{' !in m && '{' !in ing1
    requires '$' !in ing1 && '$' !in ing2
    ensures Fill(p + "{0}" + m + "{1}" + q, ing1, ing2) == p + ing1 + m + ing2 + q
  {
    var s := p + "{0}" + (m + "{1}" + q);
    assert s == p + "{0}" + m + "{1}" + q;
    forall j | 0 <= j < |p| ensures !OccursAt(s, "{0}", j) {
      assert s[j] == p[j];
      assert j + 3 <= |s| ==> s[j..j + 3][0] == s[j];
    }
    ReplaceFirstAt(p, "{0}", m + "{1}" + q, ing1);
    var pre := p + ing1 + m;
    var s1 := pre + "{1}" + q;
    assert p + ing1 + (m + "{1}" + q) == s1;
    assert '{' !in pre;
    forall j | 0 <= j < |pre| ensures !OccursAt(s1, "{1}", j) {
      assert s1[j] == pre[j];
      assert j + 3 <= |s1| ==> s1[j..j + 3][0] == s1[j];
    }
    ReplaceFirstAt(pre, "{1}", q, ing2);
  }

  /** The pasta title filled in, for names without `$` and a first name without `{`. */
  lemma PastaTitle(ing1: string, ing2: string)
    requires '$' !in ing1 && '$' !in ing2 && '{' !in ing1
    ensures Fill(PastaTemplate.title, ing1, ing2) == "Pasta with " + ing1 + " and " + ing2
  {
    FilledTitle("Pasta with ", " and ", "", PastaTemplate.title, ing1, ing2);
    assert "Pasta with " + ing1 + " and " + ing2 + "" == "Pasta with " + ing1 + " and " + ing2;
  }

  /** The stir-fry title filled in, under the same conditions. */
  lemma StirFryTitle(ing1: string, ing2: string)
    requires '$' !in ing1 && '$' !in ing2 && '{' !in ing1
    ensures Fill(StirFryTemplate.title, ing1, ing2) == ing1 + " and " + ing2 + " Stir-Fry"
  {
    var t := "{0} and {1} Stir-Fry";
    assert StirFryTemplate.title == t;
    assert t == "" + "{0}" + " and " + "{1}" + " Stir-Fry";
    FilledTitle("", " and ", " Stir-Fry", t, ing1, ing2);
    assert "" + ing1 == ing1;
  }

  /** The salad title filled in, under the same conditions. */
  lemma SaladTitle(ing1: string, ing2: string)
    requires '$' !in ing1 && '$' !in ing2 && '{' !in ing1
    ensures Fill(SaladTemplate.title, ing1, ing2) == "Roasted " + ing1 + " and " + ing2 + " Salad"
  {
    FilledTitle("Roasted ", " and ", " Salad", SaladTemplate.title, ing1, ing2);
  }

  /** A title of the form `p{0}m{1}q` filled in. */
  lemma FilledTitle(p: string, m: string, q: string, title: string, ing1: string, ing2: string)
    requires title == p + "{0}" + m + "{1}" + q
    requires '{' !in p && '{' !in m
    requires '$' !in ing1 && '$' !in ing2 && '{' !in ing1
    ensures Fill(title, ing1, ing2) == p + ing1 + m + ing2 + q
  {
    FillTwoSlots(p, m, q, ing1, ing2);
  }

  /** The generated title reads as the chosen template's sentence around the two names. */
  lemma MockTitles(params: GenerateRecipeParams, templateIndex: nat, imageIndex: nat,
                   id: string, createdAt: string)
    requires templateIndex < |RecipeTemplates| && imageIndex < |FoodImages|
    requires |params.ingredients| >= 2
    requires '$' !in params.ingredients[0].name && '$' !in params.ingredients[1].name
    requires '{' !in params.ingredients[0].name
    ensures var r := MockGenerateRecipe(params, templateIndex, imageIndex, id, createdAt);
      var ing1 := params.ingredients[0].name;
      var ing2 := params.ingredients[1].name;
      r.Ok?
      && (templateIndex == 0 ==> r.value.title == "Pasta with " + ing1 + " and " + ing2)
      && (templateIndex == 1 ==> r.value.title == ing1 + " and " + ing2 + " Stir-Fry")
      && (templateIndex == 2 ==> r.value.title == "Roasted " + ing1 + " and " + ing2 + " Salad")
  {
    MockFilledText(params, templateIndex, imageIndex, id, createdAt);
    var ing1 := params.ingredients[0].name;
    var ing2 := params.ingredients[1].name;
    if templateIndex == 0 {
      PastaTitle(ing1, ing2);
    } else if templateIndex == 1 {
      StirFryTitle(ing1, ing2);
    } else {
      SaladTitle(ing1, ing2);
    }
  }
}
