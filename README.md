# SmartChef recipe store and mock recipe builder, in Dafny

SmartChef is a client-side recipe generator. Its only non-rendering logic is
modelled here:

- **The recipe store.** One state record has five fields: the ingredient list, the recipe history (newest first), the favorites, the dietary preferences and the `isGenerating` flag. Seven actions rewrite it, and a `partialize` projection selects what is persisted.
- **The mock recipe builder.** It refuses fewer than two ingredients. Otherwise it fills one of three fixed templates with the first two ingredient names and builds the recipe's ingredient list and tags.

Files:

- `wrappers.dfy`: `Option` and `Result` (a value, or a thrown error message).
- `types.dfy`: the records `Ingredient`, `Recipe`, `DietaryPreference` and `GenerateRecipeParams`. The optional `isFavorite` is an `Option<bool>`.
- `text.dfy`: the JavaScript string operations the core calls.
  - `trim` strips the full set of ECMAScript whitespace and line-terminator code points.
  - `toLowerCase` is modelled on ASCII letters.
  - `indexOf` returns the first occurrence.
  - `replace` with a string pattern replaces only the first occurrence and expands `$$`, `$&`, `` $` `` and `$'` in the replacement, as the ECMAScript GetSubstitution operation does. No precondition on `$` is needed. The lemmas that read titles as plain text take "no `$` in the names" as a hypothesis, and `DollarAmpersandKeepsPlaceholder` shows the expansion at work.
- `lists.dfy`: `filter` over sequences, and "keys are distinct" over sequences.
- `mock_recipe_service.dfy`: the templates, the image list and `MockGenerateRecipe`. The random template index, random image index, uuid and timestamp are parameters.
- `recipe_store.dfy`:
  - one function per action, computing the new field values;
  - lemmas about those functions;
  - a `Store` class whose methods update its five fields in place, each specified by those functions. Each method also keeps the class invariant `Valid()`: names are unique case-insensitively, favorites are marked and have distinct ids, the history is in step with the favorites (distinct ids, and an entry is marked favorite exactly when its id is among the favorites), and preferences have no duplicates.
- `scenario.dfy`: a session end to end. It adds ingredients, generates a recipe, and toggles the recipe's favorite status twice.

Three behaviours of the code worth knowing:

- The mock checks the ingredient count only after its two-second delay.
- A failed generation leaves `isGenerating` false, not at its earlier value.
- Toggling a favorite whose id is missing from the history only removes it. There is no fallback that rebuilds the entry from the favorites copy.

## Model

| member | source | states |
|---|---|---|
| Text.Trim | project/src/store/recipeStore.ts:34 | `trim` never lengthens its input and leaves no whitespace at either end; `TrimSlice`, `TrimOutside`, `TrimEmptyIff` and `TrimIdempotent` give its full meaning |
| Text.TrimSlice | project/src/store/recipeStore.ts:34 | the trimmed name is the slice of the input that starts after the leading whitespace |
| Text.TrimOutside | project/src/store/recipeStore.ts:34 | only whitespace is cut off, before and after the trimmed slice |
| Text.TrimEmptyIff | project/src/store/recipeStore.ts:34-35 | trimming gives the empty string exactly when the input is all whitespace, so exactly those inputs are rejected |
| Text.TrimIdempotent | project/src/store/recipeStore.ts:34 | trimming an already trimmed name changes nothing |
| Text.Lower | project/src/store/recipeStore.ts:39 | lower-casing keeps the length and maps each character on its own |
| Text.LowerIdempotent | project/src/store/recipeStore.ts:39 | lower-casing twice is lower-casing once |
| Text.IndexOfFrom | project/src/services/mockRecipeService.ts:105 | `indexOf` finds the first occurrence at or after the start, or reports that none exists |
| Text.Substitution | project/src/services/mockRecipeService.ts:105 | GetSubstitution: a replacement text without `$` is inserted verbatim; the `$` patterns are expanded as ECMAScript specifies (see `DollarAmpersandKeepsPlaceholder`) |
| Text.ReplaceFirst | project/src/services/mockRecipeService.ts:105 | `replace` with a string pattern keeps the text before and after the first occurrence, and the whole string when there is none; `ReplaceFirstAt` fixes what goes in between |
| Text.ReplaceFirstAbsent | project/src/services/mockRecipeService.ts:105 | `replace` returns the string unchanged when the pattern does not occur |
| Text.ReplaceFirstAt | project/src/services/mockRecipeService.ts:105 | `replace` replaces exactly the first occurrence: for `p + pat + q` with no earlier occurrence and no `$` in the replacement, the result is `p + rep + q` |
| Text.DollarAmpersandKeepsPlaceholder | project/src/services/mockRecipeService.ts:105 | an ingredient named `$&` puts the placeholder `{0}` back instead of its own name |
| Lists.Filter | project/src/store/recipeStore.ts:54 | `filter` keeps exactly the elements that pass the test and never lengthens the list |
| Lists.FilterAt | project/src/store/recipeStore.ts:54 | a kept element lands at the index equal to the number of kept elements before it |
| Lists.FilterKeepsDistinct | project/src/store/recipeStore.ts:54 | filtering keeps distinct keys distinct |
| MockRecipeService.MockGenerateRecipe | project/src/services/mockRecipeService.ts:89-138 | fails exactly when there are fewer than 2 ingredients, with the message "Please add at least 2 ingredients" |
| MockRecipeService.Fill | project/src/services/mockRecipeService.ts:105-108 | the two chained replacements leave a text without placeholders unchanged; `FillTwoSlots` gives the filled text |
| MockRecipeService.FillSteps | project/src/services/mockRecipeService.ts:107-109 | the instructions have as many steps as the template, and each is that step with the two first-occurrence replacements applied |
| MockRecipeService.ToTasteLines | project/src/services/mockRecipeService.ts:119 | one "`<name>`, to taste" line per extra ingredient, in input order |
| MockRecipeService.RecipeIngredientLines | project/src/services/mockRecipeService.ts:112-120 | the ingredient list has four lines more than there are ingredients, with the four staples at positions 2 to 5; `MockIngredientList` gives every line |
| MockRecipeService.MockIngredientList | project/src/services/mockRecipeService.ts:112-120 | for n ingredients the list has n + 4 lines: the two main ones "prepared as needed", the four staples, then line 6 + k is ingredient 2 + k "to taste" |
| MockRecipeService.MockFilledText | project/src/services/mockRecipeService.ts:104-109 | title, description and each step are the template's text with the first `{0}` replaced by the first name, then the first `{1}` by the second |
| MockRecipeService.MockCopiedFields | project/src/services/mockRecipeService.ts:122-137 | health tips, times, servings and difficulty come from the template; tags are the template's plus the two names (6 in all); not a favorite; id, image and timestamp are the supplied ones |
| MockRecipeService.TemplatesWellFormed | project/src/services/mockRecipeService.ts:15-87 | every template has non-negative times, positive servings, an easy or medium difficulty and four tags |
| MockRecipeService.MockRecipeWellFormed | project/src/services/mockRecipeService.ts:128-132 | every generated recipe has non-negative times, positive servings and is never hard |
| MockRecipeService.FillTwoSlots | project/src/services/mockRecipeService.ts:105 | filling `p{0}m{1}q` gives `p ing1 m ing2 q` when `p`, `m` and the first name have no `{` and neither name has `$` |
| MockRecipeService.PastaTitle | project/src/services/mockRecipeService.ts:17 | the pasta title reads "Pasta with ing1 and ing2" |
| MockRecipeService.StirFryTitle | project/src/services/mockRecipeService.ts:42 | the stir-fry title reads "ing1 and ing2 Stir-Fry" |
| MockRecipeService.SaladTitle | project/src/services/mockRecipeService.ts:65 | the salad title reads "Roasted ing1 and ing2 Salad" |
| MockRecipeService.MockTitles | project/src/services/mockRecipeService.ts:100-105 | the generated title is the chosen template's sentence around the two names |
| RecipeStore.HasName | project/src/store/recipeStore.ts:38-40 | the `some` test holds exactly when the lower-cased name is among the lower-cased names present |
| RecipeStore.AddIngredientTo | project/src/store/recipeStore.ts:33-50 | the earlier ingredients are kept and at most one entry is appended, carrying the fresh id and a non-empty trimmed name; see `AddIngredientEffect` and `AddIngredientIdempotent` |
| RecipeStore.AddIngredientEffect | project/src/store/recipeStore.ts:33-50 | all-whitespace input or a case-insensitive duplicate changes nothing; otherwise exactly one `{fresh id, trimmed name}` is appended after the untouched earlier entries |
| RecipeStore.AddIngredientKeepsUniqueNames | project/src/store/recipeStore.ts:37-49 | adding keeps the invariant that no two ingredients share a lower-cased name |
| RecipeStore.AddIngredientIdempotent | project/src/store/recipeStore.ts:38-42 | after a name is added, adding any spelling with the same trimmed lower-case form changes nothing |
| RecipeStore.RemoveIngredientFrom | project/src/store/recipeStore.ts:52-56 | no remaining ingredient carries the id and the list never grows; see `RemoveIngredientEffect` and `RemoveIngredientKeepsOrder` |
| RecipeStore.RemoveIngredientEffect | project/src/store/recipeStore.ts:52-56 | removal drops exactly the entries with that id, keeps every other entry, and is a no-op for an absent id |
| RecipeStore.RemoveIngredientKeepsOrder | project/src/store/recipeStore.ts:54 | surviving entries keep their relative order |
| RecipeStore.RemoveIngredientKeepsUniqueNames | project/src/store/recipeStore.ts:52-56 | removal keeps names unique |
| RecipeStore.Negate | project/src/store/recipeStore.ts:87 | `!isFavorite` is always defined and is true exactly when the flag was not true, so an undefined flag becomes true |
| RecipeStore.FlipFavorite | project/src/store/recipeStore.ts:85-90 | the history keeps its length and order; only entries with the id change, and only by negating the favorite flag (undefined counts as false) |
| RecipeStore.FindIndex | project/src/store/recipeStore.ts:94-96 | the first index carrying the id, or -1 exactly when none does |
| RecipeStore.RemoveRecipeFrom | project/src/store/recipeStore.ts:99-101 | no remaining favorite carries the id and the list never grows |
| RecipeStore.ToggleFavorites | project/src/store/recipeStore.ts:92-109 | the id ends up among the favorites exactly when it was not there and the history has a recipe with it; at most one entry is added; see `ToggleFavoritesCases` |
| RecipeStore.FindIndexAfterFlip | project/src/store/recipeStore.ts:103-105 | the first match in the flipped history is at the same index as in the original |
| RecipeStore.ToggleFavoritesCases | project/src/store/recipeStore.ts:93-109 | an id already favored is removed everywhere and the others are kept; otherwise a copy of its first history entry marked favorite is put in front; otherwise nothing changes |
| RecipeStore.FlipFavoriteTwice | project/src/store/recipeStore.ts:85-90 | toggling twice restores every entry, except that an undefined flag on a matching entry becomes false |
| RecipeStore.FlipFavoriteTwiceRestores | project/src/store/recipeStore.ts:85-90 | where matching entries have a defined flag, toggling twice restores the history exactly |
| RecipeStore.ToggleFavoritesTwice | project/src/store/recipeStore.ts:82-116 | toggling twice an id that is in the history but not in the favorites restores the favorites exactly |
| RecipeStore.ToggleFavoritesKeepsValid | project/src/store/recipeStore.ts:93-109 | every favorite stays marked favorite and favorite ids stay distinct |
| RecipeStore.ToggleFavoritesSparesOthers | project/src/store/recipeStore.ts:85-109 | a recipe with another id is neither added to nor removed from the favorites, and keeps its flag and position in the history |
| RecipeStore.ToggleFavoritesOtherIds | project/src/store/recipeStore.ts:98-109 | for every other id, membership among the favorites is unchanged |
| RecipeStore.ToggleFavoritesKeepsInStep | project/src/store/recipeStore.ts:82-116 | toggling keeps the history in step with the favorites: distinct history ids, and an entry is marked favorite exactly when its id is among the favorites |
| RecipeStore.ToggleFavoritesTwiceFavored | project/src/store/recipeStore.ts:82-116 | toggling twice an id that is in the history and among the favorites restores the history exactly and puts that history entry back at the front of the other favorites |
| RecipeStore.PrependKeepsInStep | project/src/store/recipeStore.ts:70-73 | putting a recipe with a new id, not marked favorite, at the front of the history keeps it in step with the favorites |
| RecipeStore.ToggleFavoriteKeepsInvariant | project/src/store/recipeStore.ts:82-116 | toggling a favorite keeps the whole store invariant |
| RecipeStore.TogglePreference | project/src/store/recipeStore.ts:118-134 | the preference is in the new list exactly when it was not in the old one; see `TogglePreferenceMembership` |
| RecipeStore.TogglePreferenceMembership | project/src/store/recipeStore.ts:118-134 | a present preference loses every occurrence, an absent one is appended at the end, and no other preference changes membership |
| RecipeStore.TogglePreferenceKeepsNoDuplicates | project/src/store/recipeStore.ts:118-134 | toggling keeps the preference list free of duplicates |
| RecipeStore.TogglePreferenceTwice | project/src/store/recipeStore.ts:118-134 | toggling twice restores the membership of every preference, and the exact list when the preference was absent |
| RecipeStore.ElementsCount | project/src/store/recipeStore.ts:118-134 | helper of `PreferencesBounded`: a preference list without duplicates, which toggling keeps, has as many elements as its set of members |
| RecipeStore.PreferencesBounded | project/src/types/index.ts:23-30 | a duplicate-free preference list holds at most the seven members of the closed enumeration |
| RecipeStore.Store.Partialize | project/src/store/recipeStore.ts:142-145 | the persisted value holds the favorites and the preferences; `PartializeExact` shows it holds nothing else |
| RecipeStore.PartializeExact | project/src/store/recipeStore.ts:142-145 | two states persist the same value exactly when their favorites and preferences agree |
| RecipeStore.Store.constructor | project/src/store/recipeStore.ts:27-31 | the store starts with empty lists, not generating, with the invariant established |
| RecipeStore.Store.AddIngredient | project/src/store/recipeStore.ts:33-50 | the ingredients become the result of the add; the other four fields are unchanged; the invariant is kept |
| RecipeStore.Store.RemoveIngredient | project/src/store/recipeStore.ts:52-56 | the ingredients become the filtered list; nothing else changes; the invariant is kept |
| RecipeStore.Store.ClearIngredients | project/src/store/recipeStore.ts:58-60 | the ingredient list becomes empty and the other fields are untouched |
| RecipeStore.Store.GenerateRecipe | project/src/store/recipeStore.ts:62-80 | on success the recipe is put at the front of the history and returned; on failure the history is unchanged and the error is passed on; the flag ends false; ingredients, favorites and preferences are never touched; the invariant is kept when a new recipe has a fresh id and is not marked favorite |
| RecipeStore.Store.ToggleFavoriteRecipe | project/src/store/recipeStore.ts:82-116 | history and favorites become the flipped history and the toggled favorites; nothing else changes; the invariant is kept |
| RecipeStore.Store.ToggleDietaryPreference | project/src/store/recipeStore.ts:118-134 | the preferences become the toggled list; nothing else changes; the invariant is kept |
| RecipeStore.Store.SetIsGenerating | project/src/store/recipeStore.ts:136-138 | the flag takes the given value and nothing else changes |
| Scenario.AddIngredientsScenario | project/src/store/recipeStore.ts:33-50 | adding a name, then a respelling of it, then a different name leaves exactly the two trimmed names |
| Scenario.GenerateAndFavoriteScenario | project/src/store/recipeStore.ts:62-116 | a recipe generated from two ingredients lists both; toggling it favorite once yields one marked copy; toggling again empties the favorites |
| Scenario.GeneratedRecipeIsFresh | project/src/services/mockRecipeService.ts:122-137 | a generated recipe whose uuid is new to the history and the favorites meets the freshness hypothesis of `Store.GenerateRecipe`, since the generator never marks its recipes favorite |

## Left out

- The two-second `setTimeout` delay is not modelled. The code performs it before the ingredient-count check.
- `uuidv4`, `new Date().toISOString()` and the random template and image choice are parameters. Ids are therefore not proved unique: uniqueness rests on the uuid generator.
- `RecipeStore.Store.GenerateRecipe`: keeps the history in step with the favorites only for a recipe whose id is new, because that rests on `uuidv4` never repeating an id; `Scenario.GeneratedRecipeIsFresh` shows the generator meets the rest of the hypothesis.
- The asynchronous lifecycle is not modelled. `Store.GenerateRecipe` is one atomic step that takes the generator's outcome (a recipe or an error) as input. The intermediate `isGenerating == true` state, overlapping calls and cancellation are not represented.
- The `Store` always calls `MockGenerateRecipe` in the source. The model does not tie the outcome parameter of `Store.GenerateRecipe` to that function; `Scenario.GenerateAndFavoriteScenario` composes the two.
- The zustand `create` and `persist` middleware are not modelled: local storage, JSON serialisation, rehydration on startup, recovery from corrupt data, and the write after every mutation. Only the `partialize` projection is modelled.
- `Text.Lower`: models `toLowerCase` on the ASCII letters only, because Unicode case mapping (for example `İ` or `ẞ`) is a table outside the model; non-ASCII characters are kept unchanged.
- JavaScript numbers are modelled as unbounded integers. Every value the application uses is a small integer.
- The optional `dietaryPreferences`, `excludeIngredients` and `mealType` of a generation request are carried but unused, as in the mock.
- The UI components, routing and styling are not part of this model. This includes the caller-side two-ingredient guard in the recipe generator component.
