/** The "Create New Recipe" form: free-text fields, a comma-separated
    ingredient list, and a Save button that adds the recipe to the store. */
module CreateRecipeView {
  import opened Text
  import opened Models
  import opened Store

  /** The symbol the form starts with. */
  const DefaultSymbol: string := "fork.knife"

  /** The Save button is enabled unless the name, the ingredients text or the
      instructions is the empty string. */
  predicate SaveEnabled(name: string, ingredientsText: string, instructions: string) {
    !(name == [] || ingredientsText == [] || instructions == [])
  }

  /** Only empty strings disable Save: text made of spaces enables it. */
  lemma SaveEnabledIff(name: string, ingredientsText: string, instructions: string)
    ensures SaveEnabled(name, ingredientsText, instructions) <==>
      |name| > 0 && |ingredientsText| > 0 && |instructions| > 0
    ensures SaveEnabled(" ", " ", " ")
  {
  }

  /** The ingredient names `saveRecipe` parses: the text split at every comma,
      each block trimmed of spaces and tabs. */
  function ParseIngredientNames(text: string): seq<string> {
    var blocks := Split(text, ',');
    seq(|blocks|, k requires 0 <= k < |blocks| => Trim(blocks[k], Whitespaces))
  }

  /** A text with k commas yields exactly k + 1 names. */
  lemma ParseCount(text: string)
    ensures |ParseIngredientNames(text)| == Count(text, ',') + 1
  {
    SplitCount(text, ',');
  }

  /** Each parsed name has no leading or trailing space or tab, and contains
      no comma. */
  lemma ParsedNamesAreClean(text: string)
    ensures forall k :: 0 <= k < |ParseIngredientNames(text)| ==>
      var n := ParseIngredientNames(text)[k];
      (n == [] || (n[0] !in Whitespaces && n[|n| - 1] !in Whitespaces)) && ',' !in n
  {
    var blocks := Split(text, ',');
    forall k | 0 <= k < |blocks| ensures ',' !in Trim(blocks[k], Whitespaces) {
      assert ',' !in blocks[k];
    }
  }

  /** A trailing comma adds one empty name at the end. */
  lemma ParseTrailingComma(text: string)
    ensures ParseIngredientNames(text + [',']) == ParseIngredientNames(text) + [[]]
  {
    SplitTrailingSeparator(text, ',');
  }

  /** Writing clean names joined by commas and parsing the text gives the
      names back. */
  lemma ParseJoin(names: seq<string>)
    requires |names| >= 1
    requires forall k :: 0 <= k < |names| ==> ',' !in names[k]
    requires forall k :: 0 <= k < |names| ==>
      names[k] == [] || (names[k][0] !in Whitespaces && names[k][|names[k]| - 1] !in Whitespaces)
    ensures ParseIngredientNames(Join(names, ',')) == names
  {
    SplitJoin(names, ',');
    forall k | 0 <= k < |names| ensures Trim(names[k], Whitespaces) == names[k] {
      TrimOfTrimmed(names[k], Whitespaces);
    }
  }

  /** The recipe `saveRecipe` builds; freshId stands for the UUID the
      initialiser draws. */
  function NewRecipeFromForm(freshId: Id, name: string, ingredientsText: string, instructions: string,
                             symbolName: string, category: string): Recipe
  {
    NewRecipe(freshId, name, ParseIngredientNames(ingredientsText), instructions, symbolName, false, category)
  }

  /** A new recipe is not a favourite; it carries the parsed names and every
      other field exactly as typed. */
  lemma NewRecipeFromFormSpec(freshId: Id, name: string, ingredientsText: string, instructions: string,
                              symbolName: string, category: string)
    ensures var r := NewRecipeFromForm(freshId, name, ingredientsText, instructions, symbolName, category);
      !r.isFavorite && r.id == freshId && r.name == name && r.instructions == instructions &&
      r.symbolName == symbolName && r.category == category &&
      r.ingredientNames == ParseIngredientNames(ingredientsText) &&
      |r.ingredientNames| == Count(ingredientsText, ',') + 1
  {
    ParseCount(ingredientsText);
  }

  /** `CreateRecipeView`, with its `@State` form fields. */
  class CreateRecipeView {
    const store: RecipeStore
    var recipeName: string
    var ingredientsInput: string
    var instructionsInput: string
    var symbolName: string
    var category: string

    constructor (store: RecipeStore)
      ensures this.store == store
      ensures recipeName == [] && ingredientsInput == [] && instructionsInput == [] && category == []
      ensures symbolName == DefaultSymbol
    {
      this.store := store;
      recipeName := [];
      ingredientsInput := [];
      instructionsInput := [];
      symbolName := DefaultSymbol;
      category := [];
    }

    predicate CanSave()
      reads this
    {
      SaveEnabled(recipeName, ingredientsInput, instructionsInput)
    }

    /** `saveRecipe()`: the new recipe is appended to the store. */
    method SaveRecipe(freshId: Id)
      modifies store`recipes
      ensures store.recipes == old(store.recipes) +
        [NewRecipeFromForm(freshId, recipeName, ingredientsInput, instructionsInput, symbolName, category)]
    {
      var ingredientNames := ParseIngredientNames(ingredientsInput);
      var newRecipe := NewRecipe(freshId, recipeName, ingredientNames, instructionsInput, symbolName, false, category);
      store.AddRecipe(newRecipe);
    }
  }
}
