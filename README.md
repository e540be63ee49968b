# SwipeCook in Dafny

SwipeCook is an iOS recipe app. The user keeps a pantry of ingredients
chosen from a master list, and the app offers the stored recipes whose
ingredients are all in the pantry, as a deck of cards to swipe. Recipes
can be created, edited, searched, deleted and marked as favourites.

This project models the in-memory part of the app and proves properties of
that model:

- `RecipeStore` (`recipe_store.dfy`, module `Store`) is a class. Its three
  array fields are `recipes`, `masterIngredients` and `availableIngredients`
  (the pantry). Its methods are the store's mutating operations. Each pantry
  and recipe update other than `AddRecipe` is specified by a pure function:
  `PantryAfterAdd`, `PantryAfterAddNamed`, `ReplaceFirstById`, `RemoveRows`
  and `RemoveAtOffsets`. `AddRecipe` appends to the recipes. The lemmas about
  those functions state what the source promises. Recipe matching and
  `ingredients(for:)` are pure filters.
- The records `Ingredient` and `Recipe` and the name-only JSON decoder are
  datatypes and functions (`recipe.dfy`, module `Models`).
- Each screen with rules is a module. A screen's `@State` fields are the
  fields of a class, and its handlers are methods:
  - the swipe deck and the card's drag state machine (`matched_recipes_view.dfy`);
  - the pantry screen with its suggestions (`ingredient_view.dfy`);
  - the ingredient picker (`ingredient_picker_view.dfy`);
  - the recipe list (`my_recipes_view.dfy`);
  - the create form (`create_recipe_view.dfy`);
  - the edit form (`edit_recipe_view.dfy`);
  - the detail screen (`recipe_detail_view.dfy`);
  - the favourites list (`favorite_recipes_view.dfy`).
- Shared helpers live in two modules:
  - `Text` models `lowercased`, `capitalized`, `contains`,
    `trimmingCharacters(in:)` and `components(separatedBy:)`.
  - `Seqs` models `filter`, `firstIndex(where:)` and `remove(atOffsets:)`.

Modelling choices:

- Ids are integers standing for UUIDs. Wherever the app draws a fresh UUID,
  the model takes the id as a parameter.
- Foundation's case folding is ASCII lower-casing (`Lower`). Every
  case-insensitive comparison is modelled as a comparison after `Lower`:
  `caseInsensitiveCompare`, `lowercased()` and
  `localizedCaseInsensitiveContains`.
- `.whitespaces` is the set {space, tab}. `.whitespacesAndNewlines` adds
  line feed, carriage return, vertical tab and form feed.
- Drag translations are `real`. Only comparisons with the thresholds matter.
- The `@Binding` between the edit form and the picker is a shared
  `SelectionBinding` object. The form owns it, and the picker writes to it.
- `CreateRecipeView.swift:59` passes `ingredients:`, a list of `Ingredient`
  records, to `Recipe(...)`. The only initialiser of `Recipe` takes
  `ingredientNames: [String]` (`Recipe.swift:42`), so the call as written
  does not compile. The model passes the parsed names as `ingredientNames`.
  The `Ingredient(name:)` records built on line 54 are used nowhere else.
- `MyRecipesView.swift:48-49` removes the list's row offsets from the
  full array. While a search is active, that deletes the wrong recipe (see
  Findings). The model keeps the code as written (`DeleteRecipeAsWritten`)
  and a corrected operation (`DeleteRecipe`). The corrected operation goes
  through the store's `removeRecipe(at:from:)`, which the app never calls.
- `MatchedRecipesView.swift:56-58` reloads the deck when the store
  announces a new pantry. A `@Published` property announces a change
  before it stores the new value, and the handler reads the store rather
  than the announced value, so after a pantry change the deck holds the
  matches of the previous pantry until the next `onAppear`
  (`MatchedRecipesView.swift:59-61`) reloads it (see Findings). The pantry
  changes only on the Pantry screen, which is a separate tab, and showing
  the Recipes tab again runs `onAppear` and reads the store after the
  change. With the current tab layout the stale deck is therefore replaced
  before it can be seen: the defect is latent. `ReceivePantryAsWritten` is
  called with the store still holding the old pantry, and `ReceivePantry`
  is the corrected handler. `Reload` is the `onAppear` reload, which reads
  the store as it is.

## Model

| member | source | states |
|---|---|---|
| Models.IngredientDefaults | SwipeCook/Models/Recipe.swift:10-15 | An ingredient built with the default arguments has an empty unit and keeps the given id and name |
| Models.RecipeDefaults | SwipeCook/Models/Recipe.swift:42-49 | A recipe built with the default arguments is not a favourite and has an empty category |
| Models.RecipeStoresNames | SwipeCook/Models/Recipe.swift:42-45 | The initialiser stores the ingredient names unchanged, with their order and duplicates |
| Models.MutationsKeepFixedFields | SwipeCook/Models/Recipe.swift:34-40 | Changing `isFavorite` or `category` leaves id, name, ingredient names, instructions and symbol fixed, and each change leaves the other mutable field alone |
| Models.DecodeIngredient | SwipeCook/Models/Recipe.swift:18-30 | Decoding succeeds exactly when `name` is present and is a string; the result has the fresh id, that name and an empty unit; a missing `name` is a key-not-found error, a `null` one a value-not-found error, and any other non-string a type-mismatch error |
| Models.DecodeReadsOnlyName | SwipeCook/Models/Recipe.swift:18-24 | Keys other than `name` do not affect the decoded result |
| Models.DecodeTwiceGivesDistinctIds | SwipeCook/Models/Recipe.swift:24-27 | Two decodes of the same object give two ingredients with the same name and different ids |
| Store.MatchesIff | SwipeCook/Data/RecipeStore.swift:76-80 | A recipe matches exactly when each of its ingredient names equals the name of some pantry entry, up to case |
| Store.MatchedMembers | SwipeCook/Data/RecipeStore.swift:75-81 | A recipe is in `matchedRecipes` exactly when it is a stored recipe that matches the pantry |
| Store.MatchedIsSubsequence | SwipeCook/Data/RecipeStore.swift:75-81 | `matchedRecipes` keeps the store's order and is never longer than `recipes` |
| Store.MatchesWithoutNames | SwipeCook/Data/RecipeStore.swift:77-79 | A recipe with no ingredient names matches every pantry, even the empty one |
| Store.MatchesIgnoresDuplicates | SwipeCook/Data/RecipeStore.swift:77 | Two name lists with the same members give the same match result, so duplicates and order do not matter |
| Store.MatchesIgnoresCase | SwipeCook/Data/RecipeStore.swift:77-78 | Respelling one ingredient name with a different case does not change the match result |
| Store.MatchingIsCaseInsensitiveExample | SwipeCook/Data/RecipeStore.swift:77-79 | A recipe needing "egg" matches a pantry holding "Egg" |
| Store.NotMatchedWhenNameMissing | SwipeCook/Data/RecipeStore.swift:79 | A recipe with a name that no pantry entry matches up to case is not matched |
| Store.MatchingScenario | SwipeCook/Data/RecipeStore.swift:75-81 | With Spaghetti, Garlic, Olive Oil and Pepper in the pantry, a recipe needing exactly those names matches and a recipe also needing Guanciale does not |
| Store.GuancialeNotStocked | SwipeCook/Data/RecipeStore.swift:79 | A pantry made only of Spaghetti, Garlic, Olive Oil and Pepper holds no Guanciale, up to case |
| Store.IngredientsForMembers | SwipeCook/Data/RecipeStore.swift:29-34 | `ingredients(for:)` lists exactly the master entries whose name equals one of the recipe's names up to case, in master order |
| Store.PantryAfterAddSpec | SwipeCook/Data/RecipeStore.swift:47-51 | Adding an ingredient appends it exactly when its id is absent and otherwise changes nothing; distinct pantry ids stay distinct |
| Store.AddNamedIgnoresBlank | SwipeCook/Data/RecipeStore.swift:37-38 | A name made only of whitespace and newlines leaves the pantry unchanged |
| Store.AddNamedIgnoresUnknown | SwipeCook/Data/RecipeStore.swift:41 | A trimmed name that equals no master name up to case leaves the pantry unchanged |
| Store.AddNamedAddsFirstMatch | SwipeCook/Data/RecipeStore.swift:37-44 | Otherwise the first master entry whose name equals the trimmed name up to case is added as `addAvailableIngredient(_:)` would add it |
| Store.AddNamedAppendsAtMostOne | SwipeCook/Data/RecipeStore.swift:41-44 | Adding by name leaves the pantry unchanged or appends one master entry at the end; distinct ids stay distinct |
| Store.ReplaceFirstByIdSpec | SwipeCook/Data/RecipeStore.swift:64-68 | `updateRecipe` keeps the length, changes nothing when no recipe has that id, and otherwise replaces the first recipe with that id and no other position |
| Store.RemoveRowsSpec | SwipeCook/Data/RecipeStore.swift:70-73 | `removeRecipe(at:from:)` removes every recipe sharing an id with a row at one of the offsets, keeps every other recipe, and keeps the survivors in order |
| Store.SampleRecipes | SwipeCook/Data/RecipeStore.swift:123-138 | The three sample recipes carry the three given ids and none is a favourite |
| Store.PrefixOf | SwipeCook/Data/RecipeStore.swift:23 | `prefix(n)` is the first n elements, or all of them when there are fewer |
| Store.RecipeStore.constructor | SwipeCook/Data/RecipeStore.swift:17-25 | The master list and recipes are the loaded ones, falling back to empty and to the samples; the pantry is at most five entries, all from the master list |
| Store.RecipeStore.AddAvailableIngredientNamed | SwipeCook/Data/RecipeStore.swift:36-45 | The pantry becomes `PantryAfterAddNamed` of the old one, and distinct ids stay distinct |
| Store.RecipeStore.AddAvailableIngredient | SwipeCook/Data/RecipeStore.swift:47-51 | The pantry becomes `PantryAfterAdd` of the old one, and distinct ids stay distinct |
| Store.RemoveAtOffsetsKeepsDistinct | SwipeCook/Data/RecipeStore.swift:53-55 | Removing pantry rows at any offsets keeps distinct ids distinct |
| Store.RecipeStore.RemoveIngredientFromPantry | SwipeCook/Data/RecipeStore.swift:53-55 | The entries at the offsets are removed, the pantry shrinks by exactly the number of offsets, and distinct ids stay distinct |
| Store.RecipeStore.AddRecipe | SwipeCook/Data/RecipeStore.swift:59-62 | The recipe is appended at the end |
| Store.RecipeStore.UpdateRecipe | SwipeCook/Data/RecipeStore.swift:64-68 | The recipes become `ReplaceFirstById` of the old ones, with the same length |
| Store.RecipeStore.RemoveRecipe | SwipeCook/Data/RecipeStore.swift:70-73 | The recipes become `RemoveRows` of the old ones for the given rows |
| Seqs.FirstIndex | SwipeCook/Data/RecipeStore.swift:65 | `firstIndex(where:)` gives the first position that satisfies the predicate, or nothing exactly when no position does |
| Seqs.RemoveAtOffsetsKeeps | SwipeCook/Data/RecipeStore.swift:54 | `remove(atOffsets:)` keeps every element outside the offsets, in order, after exactly the survivors that preceded it |
| Seqs.KeptBeforeCount | SwipeCook/Data/RecipeStore.swift:54 | When every offset is a valid position, exactly that many elements are removed |
| Text.Lower | SwipeCook/Data/RecipeStore.swift:77-78 | `lowercased()` keeps the length, leaves no upper-case letter, and keeps every character up to case: the input with its capitals lowered |
| Text.LowerDetermined | SwipeCook/Data/RecipeStore.swift:77-78 | Any string of the input's length, with no capital, that agrees with the input up to case is the lower-cased input |
| Text.Capitalize | SwipeCook/Data/RecipeStore.swift:37 | `capitalized` keeps the length and does not change the string up to case |
| Text.Trim | SwipeCook/Data/RecipeStore.swift:37 | The trimmed string starts and ends outside the trimmed set, uses only characters of the input, and is empty exactly when every input character is in the set; otherwise it is the contiguous block of the input left after every leading and trailing character of the set is removed |
| Text.SplitJoin | SwipeCook/Views/CreateRecipeView.swift:53 | Splitting a comma-joined list of comma-free blocks gives the blocks back |
| Text.JoinSplit | SwipeCook/Views/CreateRecipeView.swift:53 | Joining the blocks of a split gives the text back |
| MatchedRecipesView.LikeFor | SwipeCook/Views/MatchedRecipesView.swift:103-109 | The preview is a like exactly when dx > 50, a dislike exactly when dx < -50, and none exactly when -50 <= dx <= 50 |
| MatchedRecipesView.OverlayColor | SwipeCook/Views/MatchedRecipesView.swift:87-90 | The overlay is green exactly for a like, red exactly for a dislike, and clear exactly for no preview |
| MatchedRecipesView.DraggedShowsLastSample | SwipeCook/Views/MatchedRecipesView.swift:101-110 | After any sequence of drag samples, the state is the last sample's translation and the preview of its width, whatever the state before |
| MatchedRecipesView.GestureOutcome | SwipeCook/Views/MatchedRecipesView.swift:111-120 | A gesture removes the card exactly when the release is more than 150 from the start; otherwise the card returns to neutral, and a removed card keeps its last preview |
| MatchedRecipesView.GestureExamples | SwipeCook/Views/MatchedRecipesView.swift:112-118 | Releasing at +160 or -160 removes the card; releasing at +-100 or exactly +-150 resets it |
| MatchedRecipesView.RecipeCardWrapper.OnChanged | SwipeCook/Views/MatchedRecipesView.swift:101-110 | The translation becomes the drag value and the preview becomes `LikeFor` of its width |
| MatchedRecipesView.RecipeCardWrapper.OnEnded | SwipeCook/Views/MatchedRecipesView.swift:111-120 | `onRemove` is called exactly when the width is more than 150 in either direction, with the state untouched; otherwise the state is reset to zero and no preview |
| MatchedRecipesView.WithoutIdSpec | SwipeCook/Views/MatchedRecipesView.swift:29-32 | Removing a card drops every card of that recipe and keeps every other card, in order |
| MatchedRecipesView.ZIndexStacksEarlierOnTop | SwipeCook/Views/MatchedRecipesView.swift:35 | With distinct ids, the card at position i has zIndex count - i, so earlier cards stack above later ones |
| MatchedRecipesView.RecipeCardWrapper.constructor | SwipeCook/Views/MatchedRecipesView.swift:66-71 | A new card holds its recipe, with translation zero and no like preview |
| MatchedRecipesView.MatchedRecipesView.constructor | SwipeCook/Views/MatchedRecipesView.swift:4-5 | The deck starts empty, on the given store |
| MatchedRecipesView.MatchedRecipesView.Reload | SwipeCook/Views/MatchedRecipesView.swift:59-61 | On appearing, the deck becomes the store's matched recipes, dropping earlier swipes |
| MatchedRecipesView.StaleDeckAfterAddingIngredient | SwipeCook/Views/MatchedRecipesView.swift:56-58 | As written, adding the one missing ingredient ("egg") to an empty pantry leaves the deck empty, although the new pantry matches the recipe |
| MatchedRecipesView.DeckOnPantryChangeSpec | SwipeCook/Views/MatchedRecipesView.swift:56-58 | The intended deck after a pantry change holds exactly the stored recipes the new pantry matches, in store order |
| MatchedRecipesView.MatchedRecipesView.ReceivePantryAsWritten | SwipeCook/Views/MatchedRecipesView.swift:56-58 | The handler sets the deck to the matches of the pantry the store still holds, ignoring the announced one |
| MatchedRecipesView.MatchedRecipesView.ReceivePantry | SwipeCook/Views/MatchedRecipesView.swift:56-58 | The intended handler sets the deck to exactly the stored recipes the announced pantry matches |
| MatchedRecipesView.MatchedRecipesView.RemoveCard | SwipeCook/Views/MatchedRecipesView.swift:29-32 | The deck loses every card with that id |
| MatchedRecipesView.MatchedRecipesView.Release | SwipeCook/Views/MatchedRecipesView.swift:29-33 | A release leaves the card in the state `onEnded` gives (neutral when it is not swiped), and removes the card's recipe from the deck exactly when the card calls `onRemove` |
| IngredientView.SuggestionsForEmptyInput | SwipeCook/Views/IngredientView.swift:104-107 | Empty input gives no suggestions |
| IngredientView.SuggestionsAreFirstQualifying | SwipeCook/Views/IngredientView.swift:111-116 | There are at most five suggestions; they are the first qualifying master entries in master order, exactly five when five or more qualify, and all of them when at most five qualify |
| IngredientView.SuggestionsQualify | SwipeCook/Views/IngredientView.swift:109-114 | Each suggestion is a master entry whose name contains the input up to case and equals no pantry name up to case |
| IngredientView.DeleteRowRemovesFirst | SwipeCook/Views/IngredientView.swift:76-77 | Deleting a row removes exactly the first pantry entry with that id and keeps the others in order; with no entry of that id nothing changes |
| IngredientView.DeleteRowKeepsDistinct | SwipeCook/Views/IngredientView.swift:76-77 | With distinct ids, deleting a row keeps the ids distinct and leaves no entry with that id |
| IngredientView.IngredientView.constructor | SwipeCook/Views/IngredientView.swift:4-6 | The screen starts on the given store with an empty text field and no suggestions |
| IngredientView.IngredientView.UpdateSuggestions | SwipeCook/Views/IngredientView.swift:103-117 | The suggestions become `Suggestions` of the input, the master list and the pantry |
| IngredientView.IngredientView.SetText | SwipeCook/Views/IngredientView.swift:22-24 | Changing the text recomputes the suggestions; writing the same text leaves them alone |
| IngredientView.IngredientView.AddSuggestion | SwipeCook/Views/IngredientView.swift:119-124 | The ingredient is added through the store, and the text and the suggestions are cleared |
| IngredientView.IngredientView.AddManually | SwipeCook/Views/IngredientView.swift:126-131 | Text made only of spaces and tabs changes nothing; otherwise the pantry is updated as `addAvailableIngredient(named:)` would, and the text and suggestions are cleared |
| IngredientView.IngredientView.DeleteRow | SwipeCook/Views/IngredientView.swift:74-79 | The pantry becomes `PantryAfterDeleteRow` of the old one |
| IngredientPickerView.FilteredIngredientsSpec | SwipeCook/Views/IngredientPickerView.swift:11-17 | Empty search shows all ingredients unchanged; otherwise exactly the ingredients whose name contains the text up to case are shown, in order |
| IngredientPickerView.ToggleRemovesFirst | SwipeCook/Views/IngredientPickerView.swift:48-49 | Toggling a selected name removes its first occurrence and keeps the rest in order |
| IngredientPickerView.ToggleAppendsAbsent | SwipeCook/Views/IngredientPickerView.swift:50-51 | Toggling an unselected name appends it at the end |
| IngredientPickerView.ToggleKeepsNoDuplicates | SwipeCook/Views/IngredientPickerView.swift:47-53 | Toggling keeps a duplicate-free selection duplicate-free, flips whether the name is selected, and leaves every other name alone |
| IngredientPickerView.ToggleTwiceAbsent | SwipeCook/Views/IngredientPickerView.swift:47-53 | Toggling an unselected name twice restores the selection |
| IngredientPickerView.ToggleTwicePresent | SwipeCook/Views/IngredientPickerView.swift:47-53 | In a duplicate-free selection, toggling a selected name twice moves it to the end instead of restoring the selection |
| IngredientPickerView.IngredientPickerView.constructor | SwipeCook/Views/IngredientPickerView.swift:4-8 | The picker is bound to the given selection, lists the given ingredients and starts with an empty search |
| IngredientPickerView.IngredientPickerView.ToggleSelection | SwipeCook/Views/IngredientPickerView.swift:47-53 | The bound selection becomes `Toggle` of the old one, and with no duplicates the row's check mark flips |
| MyRecipesView.FilteredRecipesSpec | SwipeCook/Views/MyRecipesView.swift:7-16 | Empty search lists every recipe unchanged; otherwise exactly the recipes whose name or category contains the text up to case, in store order |
| MyRecipesView.DeletedAsWrittenSpec | SwipeCook/Views/MyRecipesView.swift:48-50 | As written, exactly the given positions of the full array are removed, and the rest stay in order |
| MyRecipesView.SaladSearchRows | SwipeCook/Views/MyRecipesView.swift:7-16 | Searching "salad" in recipes named Curry and Salad (no categories) lists only Salad |
| MyRecipesView.DeleteDuringSearchRemovesWrongRow | SwipeCook/Views/MyRecipesView.swift:38-49 | With recipes [Curry, Salad] and the search "salad", swiping the only row removes Curry as written, while the corrected deletion removes Salad |
| MyRecipesView.DeleteWithoutSearchAgrees | SwipeCook/Views/MyRecipesView.swift:48-49 | With no search and distinct ids, the code as written deletes exactly the swiped recipes |
| MyRecipesView.DeletedRemovesSwipedRows | SwipeCook/Data/RecipeStore.swift:70-73 | The corrected deletion removes every recipe of a swiped row and keeps every other recipe, in order |
| MyRecipesView.MyRecipesView.constructor | SwipeCook/Views/MyRecipesView.swift:4-5 | The list starts on the given store with an empty search |
| MyRecipesView.MyRecipesView.DeleteRecipeAsWritten | SwipeCook/Views/MyRecipesView.swift:48-50 | The store's recipes become `DeletedAsWritten` of the old ones |
| MyRecipesView.MyRecipesView.DeleteRecipe | SwipeCook/Views/MyRecipesView.swift:38 | The store's recipes become `Deleted` of the old ones, the search and the offsets |
| CreateRecipeView.SaveEnabledIff | SwipeCook/Views/CreateRecipeView.swift:46 | Save is enabled exactly when the name, the ingredients text and the instructions are all non-empty; text of spaces enables it |
| CreateRecipeView.ParseCount | SwipeCook/Views/CreateRecipeView.swift:53 | A text with k commas gives exactly k + 1 names |
| CreateRecipeView.ParsedNamesAreClean | SwipeCook/Views/CreateRecipeView.swift:53 | No parsed name starts or ends with a space or tab, and none contains a comma |
| CreateRecipeView.ParseTrailingComma | SwipeCook/Views/CreateRecipeView.swift:53 | A trailing comma adds one empty name at the end |
| CreateRecipeView.ParseJoin | SwipeCook/Views/CreateRecipeView.swift:53 | Parsing clean names joined by commas gives the names back |
| CreateRecipeView.NewRecipeFromFormSpec | SwipeCook/Views/CreateRecipeView.swift:56-64 | A new recipe is not a favourite; it has the fresh id, the parsed names (one more than the commas), and the name, instructions, symbol and category as typed |
| CreateRecipeView.CreateRecipeView.constructor | SwipeCook/Views/CreateRecipeView.swift:8-12 | The form starts empty, with the symbol "fork.knife" |
| CreateRecipeView.CreateRecipeView.SaveRecipe | SwipeCook/Views/CreateRecipeView.swift:52-65 | The recipe built from the form is appended to the store |
| EditRecipeView.RebuildSeedIsIdentity | SwipeCook/Views/EditRecipeView.swift:22-27 | Saving an untouched form produces a recipe equal to the original, field for field |
| EditRecipeView.RebuildTakesForm | SwipeCook/Views/EditRecipeView.swift:86-94 | The saved recipe keeps the original id and favourite flag, and every other field comes from the form |
| EditRecipeView.EditSaveEnabledIff | SwipeCook/Views/EditRecipeView.swift:76 | Save is disabled exactly when the name is empty, no ingredient is selected, or the instructions are empty |
| EditRecipeView.SaveReplacesSameEntry | SwipeCook/Views/EditRecipeView.swift:87-95 | With distinct ids, saving replaces the edited recipe in its place and no other |
| EditRecipeView.EditRecipeView.constructor | SwipeCook/Views/EditRecipeView.swift:18-28 | The form starts as the recipe's name, ingredient names, instructions, symbol and category |
| EditRecipeView.EditRecipeView.OpenPicker | SwipeCook/Views/EditRecipeView.swift:79-81 | The picker is bound to this form's selection and lists the store's master ingredients |
| EditRecipeView.EditRecipeView.Save | SwipeCook/Views/EditRecipeView.swift:85-97 | The store replaces the recipe with the same id by the rebuilt recipe, keeping the length |
| RecipeDetailView.ToggledFavoriteSpec | SwipeCook/Views/RecipeDetailView.swift:62-63 | The copy negates `isFavorite` and keeps every other field, including the id; toggling twice gives the recipe back |
| RecipeDetailView.ToggleUsesSnapshot | SwipeCook/Views/RecipeDetailView.swift:62-64 | The stored entry becomes the toggled snapshot, so its flag is the negation of the snapshot's whatever the store held |
| RecipeDetailView.ShownIngredientsComeFromMaster | SwipeCook/Views/RecipeDetailView.swift:37 | Only master entries are shown, and a recipe name that no master entry matches up to case is not shown |
| RecipeDetailView.RecipeDetailView.constructor | SwipeCook/Views/RecipeDetailView.swift:4-5 | The screen holds the given recipe snapshot and store |
| RecipeDetailView.RecipeDetailView.ToggleFavorite | SwipeCook/Views/RecipeDetailView.swift:59-63 | The store replaces the recipe with the same id by the toggled snapshot |
| FavoriteRecipesView.FavoritesSpec | SwipeCook/Views/FavoriteRecipesView.swift:9 | A recipe is listed exactly when it is a stored favourite; the list keeps store order and is never longer than the store's |
| FavoriteRecipesView.AllFavoritesListed | SwipeCook/Views/FavoriteRecipesView.swift:9 | When every recipe is a favourite, the list is all recipes, unchanged |

## Left out

- JSON persistence is not modelled: loading the recipes file, the bundled master list, and the background save of `saveRecipes` (`RecipeStore.swift:85-121`). The constructor takes the two load results as optional values, and an absent value falls back to the samples or to an empty list.
- The Combine debounce observer and its dummy `cancellables` (`RecipeStore.swift:141-152`) are left out. They concern scheduling and concurrency.
- `Store.RecipeStore.constructor`: `shuffled()` is random. The constructor takes the shuffled master list as a parameter and requires only that it is a permutation of the master list.
- `Ingredient.quantity` is left out. No rule reads it.
- UUID generation is left out. Fresh ids are parameters, and their freshness is not checked.
- Foundation's Unicode and locale behaviour is not modelled. Case folding, `capitalized` and the whitespace sets are ASCII only.
- An empty needle is not modelled. The model's `Contains` finds an empty needle in any text, while Foundation's `localizedCaseInsensitiveContains("")` does not. Every search in the app returns early on empty text, so the model never asks.
- Presentation is not modelled: the card's rotation, scale and overlay opacity (`MatchedRecipesView.swift:76-92`), focus state, animations, sheets and navigation.
- `RecipeCardView.swift`, `RecipeRow.swift`, `ContentView.swift`, `Theme.swift` and `Item.swift` only render, wire tabs or hold constants, and are not part of this model.
- The symbol pickers (`CreateRecipeView.swift:24-30`, `EditRecipeView.swift:37-43`) only write a tag into `symbolName`. The model lets any string be stored there.
- `CreateRecipeView.CreateRecipeView.SaveRecipe`: the `Ingredient(name:)` records built at `CreateRecipeView.swift:54` are not modelled, because the `Recipe` initialiser cannot take them. The recipe carries the parsed names instead.
- Swift traps on an offset out of range in `remove(atOffsets:)` and in `filteredRecipes[$0]`. The model does not model the trap. Its methods require offsets in range instead.

## Findings

| source | as written | input that shows it | evidently intended | confidence | as-written member | corrected member |
|---|---|---|---|---|---|---|
| SwipeCook/Views/MyRecipesView.swift:48-49 | `deleteRecipe(at:)` removes the swiped row's offsets from the full `recipes` array, but those offsets index the filtered list | recipes [Curry, Salad], search "salad", swipe offset 0 (the Salad row): Curry is deleted and Salad stays | delete the recipes of the swiped rows by id, as `removeRecipe(at:from:)` (`RecipeStore.swift:70-73`) does with the filtered list | high; not executed | MyRecipesView.DeleteDuringSearchRemovesWrongRow | MyRecipesView.DeletedRemovesSwipedRows |
| SwipeCook/Views/MatchedRecipesView.swift:56-58 | the `onReceive(recipeStore.$availableIngredients)` handler ignores the announced pantry and reads `recipeStore.matchedRecipes`; a `@Published` property announces a change before storing it, so this reads the pantry before the change | a recipe needing only "egg", an empty pantry, then "Egg" added: the deck holds no card until the next `onAppear`; with the current tab layout that reload runs before the Recipes tab is seen again, so the defect is latent | rebuild the deck from the announced pantry | medium; not executed | MatchedRecipesView.StaleDeckAfterAddingIngredient | MatchedRecipesView.DeckOnPantryChangeSpec |
