/** The recipe detail screen: the recipe's ingredients as found in the master
    list, and a heart button that toggles the favourite flag. */
module RecipeDetailView {
  import opened Text
  import opened Seqs
  import opened Models
  import opened Store

  /** The copy the heart button sends to the store. */
  function ToggledFavorite(r: Recipe): Recipe {
    WithFavorite(r, !r.isFavorite)
  }

  /** The copy differs from the recipe only in its favourite flag, which is
      negated; toggling twice gives the recipe back. */
  lemma ToggledFavoriteSpec(r: Recipe)
    ensures ToggledFavorite(r).isFavorite == !r.isFavorite
    ensures SameFixedFields(ToggledFavorite(r), r) && ToggledFavorite(r).category == r.category
    ensures ToggledFavorite(ToggledFavorite(r)) == r
  {
    MutationsKeepFixedFields(r, !r.isFavorite, r.category);
  }

  /** The button works from the screen's snapshot, not from the stored
      recipe: with distinct ids the stored entry becomes the toggled snapshot,
      so its flag ends as the negation of the snapshot's whatever the store
      held, and changes stored since the snapshot was taken are replaced. */
  lemma ToggleUsesSnapshot(recipes: seq<Recipe>, snapshot: Recipe, k: nat)
    requires DistinctRecipeIds(recipes)
    requires k < |recipes| && recipes[k].id == snapshot.id
    ensures ReplaceFirstById(recipes, ToggledFavorite(snapshot)) == recipes[k := ToggledFavorite(snapshot)]
    ensures ReplaceFirstById(recipes, ToggledFavorite(snapshot))[k].isFavorite == !snapshot.isFavorite
    ensures recipes[k].isFavorite != snapshot.isFavorite ==>
      ReplaceFirstById(recipes, ToggledFavorite(snapshot))[k].isFavorite == recipes[k].isFavorite
  {
    ReplaceFirstByIdSpec(recipes, ToggledFavorite(snapshot));
  }

  /** Only master entries are shown, and a recipe name that no master entry
      matches up to case shows nothing. */
  lemma ShownIngredientsComeFromMaster(master: seq<Ingredient>, r: Recipe, n: string)
    requires forall m :: m in master ==> Lower(m.name) != Lower(n)
    ensures forall i :: i in IngredientsFor(master, r) ==> i in master && Lower(i.name) != Lower(n)
  {
    IngredientsForMembers(master, r);
  }

  /** `RecipeDetailView`. */
  class RecipeDetailView {
    const recipe: Recipe
    const store: RecipeStore

    constructor (recipe: Recipe, store: RecipeStore)
      ensures this.recipe == recipe && this.store == store
    {
      this.recipe := recipe;
      this.store := store;
    }

    /** The ingredient list shown: `ingredients(for: recipe)`. */
    function ShownIngredients(): seq<Ingredient>
      reads store
    {
      store.IngredientsOf(recipe)
    }

    /** The heart button. */
    method ToggleFavorite()
      modifies store`recipes
      ensures store.recipes == ReplaceFirstById(old(store.recipes), ToggledFavorite(recipe))
    {
      var updatedRecipe := recipe.(isFavorite := !recipe.isFavorite);
      store.UpdateRecipe(updatedRecipe);
    }
  }
}
