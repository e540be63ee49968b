/** The ingredient picker sheet of the edit form: a searchable list of the
    master ingredients in which tapping a row toggles its name in the form's
    selection. */
module IngredientPickerView {
  import opened Text
  import opened Seqs
  import opened Models

  function NameContains(search: string): Ingredient -> bool {
    (i: Ingredient) => ContainsIgnoringCase(i.name, search)
  }

  /** `filteredIngredients`. */
  function FilteredIngredients(all: seq<Ingredient>, search: string): seq<Ingredient> {
    if search == [] then all else Filter(all, NameContains(search))
  }

  /** Empty search shows every ingredient unchanged; otherwise the list keeps
      exactly the ingredients whose name contains the search text up to case,
      in their original order. */
  lemma FilteredIngredientsSpec(all: seq<Ingredient>, search: string)
    ensures search == [] ==> FilteredIngredients(all, search) == all
    ensures search != [] ==> forall i :: i in FilteredIngredients(all, search) <==>
      i in all && Contains(Lower(i.name), Lower(search))
    ensures IsSubsequence(FilteredIngredients(all, search), all)
  {
    if search == [] {
      PrefixIsSubsequence(all, |all|);
      assert all[..|all|] == all;
    } else {
      FilterMembers(all, NameContains(search));
      FilterIsSubsequence(all, NameContains(search));
    }
  }

  function EqualTo(name: string): string -> bool {
    (n: string) => n == name
  }

  /** `toggleSelection(for:)` on the selected names: the first occurrence of
      the name is removed when there is one, otherwise the name is appended. */
  function Toggle(selection: seq<string>, name: string): seq<string> {
    match FirstIndex(selection, EqualTo(name))
    case Some(k) => selection[..k] + selection[k + 1..]
    case None => selection + [name]
  }

  /** A name that is present loses its first occurrence; the rest keep their order. */
  lemma ToggleRemovesFirst(selection: seq<string>, name: string, k: nat)
    requires k < |selection| && selection[k] == name
    requires forall j :: 0 <= j < k ==> selection[j] != name
    ensures Toggle(selection, name) == selection[..k] + selection[k + 1..]
    ensures |Toggle(selection, name)| == |selection| - 1
  {
    var f := FirstIndex(selection, EqualTo(name));
    assert EqualTo(name)(selection[k]);
    assert f.Some? && f.value == k;
  }

  /** A name that is absent is appended at the end. */
  lemma ToggleAppendsAbsent(selection: seq<string>, name: string)
    requires name !in selection
    ensures Toggle(selection, name) == selection + [name]
  {
    forall j | 0 <= j < |selection| ensures !EqualTo(name)(selection[j]) {
      assert selection[j] in selection;
    }
  }

  /** Toggling keeps a duplicate-free selection duplicate-free, flips whether
      the name is selected, and leaves every other name as it was. */
  lemma ToggleKeepsNoDuplicates(selection: seq<string>, name: string)
    requires NoDuplicates(selection)
    ensures NoDuplicates(Toggle(selection, name))
    ensures name in Toggle(selection, name) <==> name !in selection
    ensures forall n :: n != name ==> (n in Toggle(selection, name) <==> n in selection)
  {
    if name in selection {
      var k :| 0 <= k < |selection| && selection[k] == name;
      var f := FirstIndex(selection, EqualTo(name));
      assert EqualTo(name)(selection[k]);
      var first := f.value;
      ToggleRemovesFirst(selection, name, first);
      SpliceNoDuplicates(selection, first);
      SpliceMembers(selection, first);
    } else {
      ToggleAppendsAbsent(selection, name);
    }
  }

  /** Toggling an absent name twice gives the original selection back. */
  lemma ToggleTwiceAbsent(selection: seq<string>, name: string)
    requires name !in selection
    ensures Toggle(Toggle(selection, name), name) == selection
  {
    ToggleAppendsAbsent(selection, name);
    var t := selection + [name];
    ToggleRemovesFirst(t, name, |selection|);
    assert t[..|selection|] == selection;
  }

  /** Toggling a selected name twice does not restore the selection: the name
      comes back at the end, so it moves there. */
  lemma ToggleTwicePresent(selection: seq<string>, name: string, k: nat)
    requires NoDuplicates(selection)
    requires k < |selection| && selection[k] == name
    ensures Toggle(Toggle(selection, name), name) == selection[..k] + selection[k + 1..] + [name]
  {
    ToggleRemovesFirst(selection, name, k);
    ToggleKeepsNoDuplicates(selection, name);
    ToggleAppendsAbsent(Toggle(selection, name), name);
  }

  /** The `@Binding selectedIngredients`: storage owned by the edit form and
      written by the picker. */
  class SelectionBinding {
    var value: seq<string>

    constructor (value: seq<string>)
      ensures this.value == value
    {
      this.value := value;
    }
  }

  /** `IngredientPickerView`. */
  class IngredientPickerView {
    const selection: SelectionBinding
    const allIngredients: seq<Ingredient>
    var searchText: string

    constructor (selection: SelectionBinding, allIngredients: seq<Ingredient>)
      ensures this.selection == selection && this.allIngredients == allIngredients
      ensures searchText == []
    {
      this.selection := selection;
      this.allIngredients := allIngredients;
      searchText := [];
    }

    /** The rows shown. */
    function Rows(): seq<Ingredient>
      reads this
    {
      FilteredIngredients(allIngredients, searchText)
    }

    /** Whether a row shows the check mark. */
    predicate IsChecked(ingredient: Ingredient)
      reads selection
    {
      ingredient.name in selection.value
    }

    method ToggleSelection(ingredient: Ingredient)
      modifies selection`value
      ensures selection.value == Toggle(old(selection.value), ingredient.name)
      ensures NoDuplicates(old(selection.value)) ==>
        NoDuplicates(selection.value) && (IsChecked(ingredient) <==> !old(IsChecked(ingredient)))
    {
      if NoDuplicates(selection.value) {
        ToggleKeepsNoDuplicates(selection.value, ingredient.name);
      }
      var index := FirstIndex(selection.value, EqualTo(ingredient.name));
      if index.Some? {
        selection.value := selection.value[..index.value] + selection.value[index.value + 1..];
      } else {
        selection.value := selection.value + [ingredient.name];
      }
    }
  }
}
