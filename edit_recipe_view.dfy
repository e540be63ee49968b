/** The "Edit Recipe" form: its fields start from the recipe being edited,
    the ingredient names are chosen with the picker, and Save rebuilds the
    recipe and replaces it in the store. */
module EditRecipeView {
  import opened Seqs
  import opened Models
  import opened Store
  import opened IngredientPickerView

  /** The form's editable state, separate from the recipe itself. */
  datatype EditForm = EditForm(
    name: string,
    selectedIngredients: seq<string>,
    instructions: string,
    symbolName: string,
    category: string)

  /** `init(recipeStore:recipe:)`: the form starts from the recipe's fields. */
  function SeedForm(r: Recipe): EditForm {
    EditForm(r.name, r.ingredientNames, r.instructions, r.symbolName, r.category)
  }

  /** `updateRecipe()`: a recipe with the original id and favourite flag and
      every other field from the form. */
  function Rebuild(r: Recipe, f: EditForm): Recipe {
    Recipe(r.id, f.name, f.selectedIngredients, f.instructions, f.symbolName, r.isFavorite, f.category)
  }

  /** The Save button is enabled unless the name is empty, no ingredient is
      selected, or the instructions are empty. */
  predicate EditSaveEnabled(f: EditForm) {
    !(f.name == [] || f.selectedIngredients == [] || f.instructions == [])
  }

  /** Saving an untouched form gives back the original recipe, field for field. */
  lemma RebuildSeedIsIdentity(r: Recipe)
    ensures Rebuild(r, SeedForm(r)) == r
  {
  }

  /** The saved recipe keeps the original id and favourite flag, and holds
      exactly the form's values: seeding a form from it gives the form back. */
  lemma RebuildTakesForm(r: Recipe, f: EditForm)
    ensures Rebuild(r, f).id == r.id && Rebuild(r, f).isFavorite == r.isFavorite
    ensures SeedForm(Rebuild(r, f)) == f
  {
  }

  /** Save is disabled exactly for an empty name, an empty selection or empty
      instructions; the seeded form of a recipe with a name, ingredients and
      instructions can be saved. */
  lemma EditSaveEnabledIff(f: EditForm, r: Recipe)
    ensures EditSaveEnabled(f) <==> |f.name| > 0 && |f.selectedIngredients| > 0 && |f.instructions| > 0
    ensures EditSaveEnabled(SeedForm(r)) <==> r.name != [] && r.ingredientNames != [] && r.instructions != []
  {
  }

  /** With distinct ids, saving replaces the edited recipe in its place and
      touches no other recipe. */
  lemma SaveReplacesSameEntry(recipes: seq<Recipe>, k: nat, f: EditForm)
    requires DistinctRecipeIds(recipes)
    requires k < |recipes|
    ensures ReplaceFirstById(recipes, Rebuild(recipes[k], f)) == recipes[k := Rebuild(recipes[k], f)]
  {
    ReplaceFirstByIdSpec(recipes, Rebuild(recipes[k], f));
  }

  /** `EditRecipeView`: the recipe snapshot, the form fields, and the selection
      the picker is bound to. */
  class EditRecipeView {
    const store: RecipeStore
    const recipe: Recipe
    const selection: SelectionBinding
    var recipeName: string
    var instructionsInput: string
    var symbolName: string
    var category: string

    constructor (store: RecipeStore, recipe: Recipe)
      ensures this.store == store && this.recipe == recipe && fresh(selection)
      ensures Form() == SeedForm(recipe)
    {
      this.store := store;
      this.recipe := recipe;
      selection := new SelectionBinding(recipe.ingredientNames);
      recipeName := recipe.name;
      instructionsInput := recipe.instructions;
      symbolName := recipe.symbolName;
      category := recipe.category;
    }

    /** The current form state. */
    function Form(): EditForm
      reads this, selection
    {
      EditForm(recipeName, selection.value, instructionsInput, symbolName, category)
    }

    predicate CanSave()
      reads this, selection
    {
      EditSaveEnabled(Form())
    }

    /** The picker sheet, bound to this form's selection and listing the
        store's master ingredients. */
    method OpenPicker() returns (picker: IngredientPickerView)
      ensures fresh(picker)
      ensures picker.selection == selection && picker.allIngredients == store.masterIngredients
      ensures picker.searchText == []
    {
      picker := new IngredientPickerView(selection, store.masterIngredients);
    }

    /** `updateRecipe()`. */
    method Save()
      modifies store`recipes
      ensures store.recipes == ReplaceFirstById(old(store.recipes), Rebuild(recipe, Form()))
      ensures |store.recipes| == |old(store.recipes)|
    {
      var updatedRecipe := Recipe(recipe.id, recipeName, selection.value, instructionsInput, symbolName,
                                  recipe.isFavorite, category);
      store.UpdateRecipe(updatedRecipe);
    }
  }
}
