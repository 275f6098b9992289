/**
 * The record types shared by the store and the recipe builder
 * (project/src/types/index.ts).
 */
module RecipeTypes {
  import opened Wrappers

  /** One user-entered ingredient: a generated identifier and the trimmed display name. */
  datatype Ingredient = Ingredient(id: string, name: string)

  /** The closed set of recipe difficulties. */
  datatype Difficulty = Easy | Medium | Hard

  /**
   * A generated recipe. Times and servings are JavaScript numbers; every value
   * the application produces is an integer, so they are modelled as `int`.
   * `isFavorite` is optional in the source, hence an `Option<bool>`.
   */
  datatype Recipe = Recipe(
    id: string,
    title: string,
    description: string,
    ingredients: seq<string>,
    instructions: seq<string>,
    healthTips: seq<string>,
    prepTime: int,
    cookTime: int,
    servings: int,
    difficulty: Difficulty,
    imageUrl: string,
    tags: seq<string>,
    isFavorite: Option<bool>,
    createdAt: string)

  /** The closed enumeration of dietary preferences. */
  datatype DietaryPreference = Vegetarian | Vegan | GlutenFree | DairyFree | LowCarb | Keto | Paleo

  /** The seven dietary preferences, in declaration order. */
  const AllDietaryPreferences: seq<DietaryPreference> :=
    [Vegetarian, Vegan, GlutenFree, DairyFree, LowCarb, Keto, Paleo]

  /** The meal types a generation request may name. */
  datatype MealType = Breakfast | Lunch | Dinner | Dessert | Snack

  /** A generation request; only `ingredients` is mandatory. */
  datatype GenerateRecipeParams = GenerateRecipeParams(
    ingredients: seq<Ingredient>,
    dietaryPreferences: Option<seq<DietaryPreference>>,
    excludeIngredients: Option<seq<string>>,
    mealType: Option<MealType>)
}
