/** The "My Recipes" screen: a searchable list of every recipe in the store,
    whose rows can be deleted by swiping. */
module MyRecipesView {
  import opened Text
  import opened Seqs
  import opened Models
  import opened Store

  function NameOrCategoryContains(search: string): Recipe -> bool {
    (r: Recipe) => ContainsIgnoringCase(r.name, search) || ContainsIgnoringCase(r.category, search)
  }

  /** `filteredRecipes`. */
  function FilteredRecipes(recipes: seq<Recipe>, search: string): seq<Recipe> {
    if search == [] then recipes else Filter(recipes, NameOrCategoryContains(search))
  }

  /** Empty search lists every recipe unchanged; otherwise a recipe is listed
      exactly when its name or its category contains the search text up to
      case; either way the rows are a subsequence of the store's recipes. */
  lemma FilteredRecipesSpec(recipes: seq<Recipe>, search: string)
    ensures search == [] ==> FilteredRecipes(recipes, search) == recipes
    ensures search != [] ==> forall r :: r in FilteredRecipes(recipes, search) <==>
      r in recipes && (Contains(Lower(r.name), Lower(search)) || Contains(Lower(r.category), Lower(search)))
    ensures IsSubsequence(FilteredRecipes(recipes, search), recipes)
    ensures |FilteredRecipes(recipes, search)| <= |recipes|
  {
    if search == [] {
      PrefixIsSubsequence(recipes, |recipes|);
      assert recipes[..|recipes|] == recipes;
    } else {
      FilterMembers(recipes, NameOrCategoryContains(search));
      FilterIsSubsequence(recipes, NameOrCategoryContains(search));
    }
  }

  /** `deleteRecipe(at:)` as written: the row offsets, which index the listed
      (possibly filtered) rows, are removed from the full recipe array. */
  function DeletedAsWritten(recipes: seq<Recipe>, offsets: set<int>): seq<Recipe> {
    RemoveAtOffsets(recipes, offsets)
  }

  /** The deletion the screen intends: the recipes of the swiped rows, found
      by id through `removeRecipe(at:from:)`. */
  function Deleted(recipes: seq<Recipe>, search: string, offsets: set<int>): seq<Recipe> {
    RemoveRows(recipes, offsets, FilteredRecipes(recipes, search))
  }

  /** As written, exactly the given positions of the full array go and every
      other recipe stays, in order. */
  lemma DeletedAsWrittenSpec(recipes: seq<Recipe>, offsets: set<int>)
    requires forall o :: o in offsets ==> 0 <= o < |recipes|
    ensures |DeletedAsWritten(recipes, offsets)| == |recipes| - |offsets|
    ensures forall i :: 0 <= i < |recipes| && i !in offsets ==>
      KeptBefore(offsets, i) < |DeletedAsWritten(recipes, offsets)| &&
      DeletedAsWritten(recipes, offsets)[KeptBefore(offsets, i)] == recipes[i]
    ensures IsSubsequence(DeletedAsWritten(recipes, offsets), recipes)
  {
    KeptBeforeCount(offsets, |recipes|);
    RemoveAtOffsetsKeeps(recipes, offsets);
    RemoveAtOffsetsIsSubsequence(recipes, offsets);
  }

  /** The intended deletion removes every recipe of a swiped row and keeps
      every other recipe, in order. */
  lemma DeletedRemovesSwipedRows(recipes: seq<Recipe>, search: string, offsets: set<int>)
    requires forall o :: o in offsets ==> 0 <= o < |FilteredRecipes(recipes, search)|
    ensures var rows := FilteredRecipes(recipes, search);
      forall o, x :: o in offsets && x in Deleted(recipes, search, offsets) ==> x.id != rows[o].id
    ensures var rows := FilteredRecipes(recipes, search);
      forall x :: x in recipes && (forall o :: o in offsets ==> x.id != rows[o].id) ==>
        x in Deleted(recipes, search, offsets)
    ensures IsSubsequence(Deleted(recipes, search, offsets), recipes)
  {
    RemoveRowsSpec(recipes, offsets, FilteredRecipes(recipes, search));
  }

  /** Removing by ids and removing by positions agree when an element's id
      is to go exactly when its position is. */
  lemma {:induction false} RemoveByIdsAtOffsets(t: seq<Recipe>, ids: set<Id>, offsets: set<int>)
    requires forall i :: 0 <= i < |t| ==> (t[i].id in ids <==> i in offsets)
    ensures RemoveByIds(t, ids) == RemoveAtOffsets(t, offsets)
  {
    if t != [] {
      var front := t[..|t| - 1];
      var last := t[|t| - 1];
      RemoveByIdsAtOffsets(front, ids, offsets);
      assert t == front + [last];
      FilterAppend(front, [last], RecipeIdNotIn(ids));
    }
  }

  /** With no search active and distinct ids, the code as written deletes
      exactly what was intended: the defect shows only while searching. */
  lemma DeleteWithoutSearchAgrees(recipes: seq<Recipe>, offsets: set<int>)
    requires DistinctRecipeIds(recipes)
    requires forall o :: o in offsets ==> 0 <= o < |recipes|
    ensures DeletedAsWritten(recipes, offsets) == Deleted(recipes, [], offsets)
  {
    var ids := IdsAtOffsets(offsets, recipes);
    forall i | 0 <= i < |recipes| ensures recipes[i].id in ids <==> i in offsets {
      if recipes[i].id in ids {
        var o :| o in offsets && 0 <= o < |recipes| && recipes[o].id == recipes[i].id;
        assert o == i;
      }
    }
    RemoveByIdsAtOffsets(recipes, ids, offsets);
  }

  /** Searching "salad" in [Curry, Salad] lists only Salad. */
  lemma SaladSearchRows(curry: Recipe, salad: Recipe)
    requires curry.name == "Curry" && curry.category == ""
    requires salad.name == "Salad" && salad.category == ""
    ensures FilteredRecipes([curry, salad], "salad") == [salad]
  {
    var search := "salad";
    assert Lower(search) == "salad";
    assert Lower(curry.name)[0] == 'c';
    NotContainsLonger(Lower(curry.name)[1..], Lower(search));
    NotContainsLonger(Lower(curry.category), Lower(search));
    var p := NameOrCategoryContains(search);
    assert !p(curry);
    ContainsIgnoringCaseOfEqualFolding(salad.name, search);
    assert p(salad);
    assert [curry, salad][1..] == [salad] && [salad][1..] == [];
    assert Filter([salad], p) == [salad];
  }

  /** While searching, the wrong recipe goes: with recipes [Curry, Salad] and
      the search "salad", the only row is Salad; swiping it (offset 0)
      deletes Curry as written and keeps Salad, while the intended deletion
      removes Salad and keeps Curry. */
  lemma DeleteDuringSearchRemovesWrongRow(curry: Recipe, salad: Recipe)
    requires curry.name == "Curry" && curry.category == ""
    requires salad.name == "Salad" && salad.category == ""
    requires curry.id != salad.id
    ensures FilteredRecipes([curry, salad], "salad") == [salad]
    ensures DeletedAsWritten([curry, salad], {0}) == [salad]
    ensures Deleted([curry, salad], "salad", {0}) == [curry]
  {
    SaladSearchRows(curry, salad);
    RemoveAtSingleOffset([curry, salad], 0);
    assert [curry, salad][1..] == [salad] && [salad][1..] == [];
    var ids := IdsAtOffsets({0}, [salad]);
    assert ids == {salad.id};
    var q := RecipeIdNotIn(ids);
    assert q(curry) && !q(salad);
    assert Filter([salad], q) == [];
    assert Filter([curry, salad], q) == [curry] + Filter([salad], q);
  }

  /** `MyRecipesView`, with its `@State` search text. */
  class MyRecipesView {
    const store: RecipeStore
    var searchText: string

    constructor (store: RecipeStore)
      ensures this.store == store && searchText == []
    {
      this.store := store;
      searchText := [];
    }

    /** The rows listed. */
    function Rows(): seq<Recipe>
      reads this, store
    {
      FilteredRecipes(store.recipes, searchText)
    }

    /** `deleteRecipe(at:)` as written. The offsets are rows of the list,
        and the list is never longer than the full array, so they are
        positions of it. */
    method DeleteRecipeAsWritten(offsets: set<int>)
      requires forall o :: o in offsets ==> 0 <= o < |Rows()|
      modifies store`recipes
      ensures store.recipes == DeletedAsWritten(old(store.recipes), offsets)
    {
      FilteredRecipesSpec(store.recipes, searchText);
      store.recipes := RemoveAtOffsets(store.recipes, offsets);
    }

    /** The row deletion the screen intends, through the store. */
    method DeleteRecipe(offsets: set<int>)
      requires forall o :: o in offsets ==> 0 <= o < |Rows()|
      modifies store`recipes
      ensures store.recipes == Deleted(old(store.recipes), old(searchText), offsets)
    {
      store.RemoveRecipe(offsets, Rows());
    }
  }
}
