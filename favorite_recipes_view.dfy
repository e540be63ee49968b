/** The "Favorite Recipes" screen: the store's recipes marked as favourite. */
module FavoriteRecipesView {
  import opened Seqs
  import opened Models

  function IsFavorite(): Recipe -> bool {
    (r: Recipe) => r.isFavorite
  }

  /** `recipeStore.recipes.filter { $0.isFavorite }`. */
  function Favorites(recipes: seq<Recipe>): seq<Recipe> {
    Filter(recipes, IsFavorite())
  }

  /** Exactly the favourite recipes are listed, in store order, and the list
      is never longer than the store's. */
  lemma FavoritesSpec(recipes: seq<Recipe>)
    ensures forall r :: r in Favorites(recipes) ==> r in recipes && r.isFavorite
    ensures forall r :: r in recipes && r.isFavorite ==> r in Favorites(recipes)
    ensures IsSubsequence(Favorites(recipes), recipes)
    ensures |Favorites(recipes)| <= |recipes|
  {
    FilterMembers(recipes, IsFavorite());
    FilterIsSubsequence(recipes, IsFavorite());
    SubsequenceMembers(Favorites(recipes), recipes);
  }

  /** When every recipe is a favourite, all of them are listed unchanged. */
  lemma AllFavoritesListed(recipes: seq<Recipe>)
    requires forall k :: 0 <= k < |recipes| ==> recipes[k].isFavorite
    ensures Favorites(recipes) == recipes
  {
    FilterAll(recipes, IsFavorite());
  }
}
