/** The "My Pantry" screen: a text field with up to five suggestions from the
    master list, manual adding, and a pantry list whose rows delete by id. */
module IngredientView {
  import opened Text
  import opened Seqs
  import opened Models
  import opened Store

  const MaxSuggestions: nat := 5

  /** A master entry is suggested for the input when its name is not already
      in the pantry (up to case) and contains the input (up to case). */
  function SuggestedFor(input: string, pantry: seq<Ingredient>): Ingredient -> bool {
    (i: Ingredient) => Lower(i.name) !in PantryNames(pantry) && Contains(Lower(i.name), Lower(input))
  }

  /** The suggestion list `updateSuggestions(for:)` computes. */
  function Suggestions(input: string, master: seq<Ingredient>, pantry: seq<Ingredient>): seq<Ingredient> {
    if input == [] then [] else PrefixOf(Filter(master, SuggestedFor(input, pantry)), MaxSuggestions)
  }

  /** Empty input gives no suggestions. */
  lemma SuggestionsForEmptyInput(master: seq<Ingredient>, pantry: seq<Ingredient>)
    ensures Suggestions([], master, pantry) == []
  {
  }

  /** There are at most five suggestions; they are the first qualifying master
      entries, in master order (all of them when fewer than five qualify). */
  lemma SuggestionsAreFirstQualifying(input: string, master: seq<Ingredient>, pantry: seq<Ingredient>)
    requires input != []
    ensures var all := Filter(master, SuggestedFor(input, pantry));
      var r := Suggestions(input, master, pantry);
      |r| <= MaxSuggestions && r == all[..|r|] && (|all| <= MaxSuggestions ==> r == all) &&
      (|all| >= MaxSuggestions ==> |r| == MaxSuggestions) && IsSubsequence(r, master)
  {
    var all := Filter(master, SuggestedFor(input, pantry));
    var r := Suggestions(input, master, pantry);
    FilterIsSubsequence(master, SuggestedFor(input, pantry));
    PrefixIsSubsequence(all, |r|);
    SubsequenceTransitive(r, all, master);
  }

  /** Every suggestion is a master entry whose lower-cased name contains the
      lower-cased input and equals no pantry name up to case. */
  lemma SuggestionsQualify(input: string, master: seq<Ingredient>, pantry: seq<Ingredient>)
    ensures forall s :: s in Suggestions(input, master, pantry) ==>
      s in master && Contains(Lower(s.name), Lower(input)) &&
      forall p :: p in pantry ==> Lower(p.name) != Lower(s.name)
  {
    if input != [] {
      var all := Filter(master, SuggestedFor(input, pantry));
      FilterMembers(master, SuggestedFor(input, pantry));
      forall s | s in Suggestions(input, master, pantry)
        ensures s in master && Contains(Lower(s.name), Lower(input))
        ensures forall p :: p in pantry ==> Lower(p.name) != Lower(s.name)
      {
        assert s in all;
        forall p | p in pantry ensures Lower(p.name) != Lower(s.name) {
          assert Lower(p.name) in PantryNames(pantry);
        }
      }
    }
  }

  /** The pantry after deleting the row of ingredient id: the first entry with
      that id is removed. */
  function PantryAfterDeleteRow(pantry: seq<Ingredient>, id: Id): seq<Ingredient> {
    match FirstIndex(pantry, IngredientIdIs(id))
    case None => pantry
    case Some(k) => pantry[..k] + pantry[k + 1..]
  }

  function IngredientIdIs(id: Id): Ingredient -> bool {
    (i: Ingredient) => i.id == id
  }

  /** Deleting a row removes exactly one entry, the first with that id, and
      keeps the others in order; with no entry of that id nothing changes. */
  lemma DeleteRowRemovesFirst(pantry: seq<Ingredient>, id: Id)
    ensures var p := PantryAfterDeleteRow(pantry, id);
      (HasId(pantry, id) ==> |p| == |pantry| - 1) && (!HasId(pantry, id) ==> p == pantry)
    ensures forall k :: 0 <= k < |pantry| && pantry[k].id == id && (forall j :: 0 <= j < k ==> pantry[j].id != id) ==>
      PantryAfterDeleteRow(pantry, id) == pantry[..k] + pantry[k + 1..]
  {
    var f := FirstIndex(pantry, IngredientIdIs(id));
    if f.Some? {
      assert pantry[f.value] in pantry;
      forall k | 0 <= k < |pantry| && pantry[k].id == id && (forall j :: 0 <= j < k ==> pantry[j].id != id)
        ensures k == f.value
      {
        assert IngredientIdIs(id)(pantry[k]);
      }
    } else {
      forall x | x in pantry ensures x.id != id {
        var m :| 0 <= m < |pantry| && pantry[m] == x;
        assert !IngredientIdIs(id)(pantry[m]);
      }
    }
  }

  /** With distinct ids, deleting a row keeps the ids distinct and leaves no
      entry with the deleted id. */
  lemma DeleteRowKeepsDistinct(pantry: seq<Ingredient>, id: Id)
    requires DistinctIds(pantry)
    ensures DistinctIds(PantryAfterDeleteRow(pantry, id))
    ensures !HasId(PantryAfterDeleteRow(pantry, id), id)
  {
    var f := FirstIndex(pantry, IngredientIdIs(id));
    if f.Some? {
      var k := f.value;
      var p := pantry[..k] + pantry[k + 1..];
      forall i, j | 0 <= i < j < |p| ensures p[i].id != p[j].id {
        SpliceIndex(pantry, k, i);
        SpliceIndex(pantry, k, j);
      }
      forall m | 0 <= m < |p| ensures p[m].id != id {
        SpliceIndex(pantry, k, m);
      }
    } else {
      forall x | x in pantry ensures x.id != id {
        var m :| 0 <= m < |pantry| && pantry[m] == x;
        assert !IngredientIdIs(id)(pantry[m]);
      }
    }
  }

  /** Whether `addManually` proceeds: the input is not blank under `.whitespaces`. */
  predicate IsBlank(s: string) {
    Trim(s, Whitespaces) == []
  }

  /** `IngredientView`, with its `@State` text and suggestion list. */
  class IngredientView {
    const store: RecipeStore
    var newIngredientName: string
    var suggestions: seq<Ingredient>

    constructor (store: RecipeStore)
      ensures this.store == store && newIngredientName == [] && suggestions == []
    {
      this.store := store;
      newIngredientName := [];
      suggestions := [];
    }

    method UpdateSuggestions(input: string)
      modifies this`suggestions
      ensures suggestions == Suggestions(input, store.masterIngredients, store.availableIngredients)
    {
      if input == [] {
        suggestions := [];
        return;
      }
      var filtered := Filter(store.masterIngredients, SuggestedFor(input, store.availableIngredients));
      suggestions := PrefixOf(filtered, MaxSuggestions);
    }

    /** Writing the text field; `onChange(of: newIngredientName)` recomputes the
        suggestions when the text actually changes. */
    method SetText(text: string)
      modifies this`newIngredientName, this`suggestions
      ensures newIngredientName == text
      ensures suggestions == if text != old(newIngredientName)
        then Suggestions(text, store.masterIngredients, store.availableIngredients)
        else old(suggestions)
    {
      var changed := text != newIngredientName;
      newIngredientName := text;
      if changed {
        UpdateSuggestions(text);
      }
    }

    method AddSuggestion(ingredient: Ingredient)
      modifies store`availableIngredients, this`newIngredientName, this`suggestions
      ensures store.availableIngredients == PantryAfterAdd(old(store.availableIngredients), ingredient)
      ensures newIngredientName == [] && suggestions == []
    {
      store.AddAvailableIngredient(ingredient);
      SetText([]);
      suggestions := [];
    }

    method AddManually()
      modifies store`availableIngredients, this`newIngredientName, this`suggestions
      ensures IsBlank(old(newIngredientName)) ==>
        store.availableIngredients == old(store.availableIngredients) &&
        newIngredientName == old(newIngredientName) && suggestions == old(suggestions)
      ensures !IsBlank(old(newIngredientName)) ==>
        store.availableIngredients ==
          PantryAfterAddNamed(store.masterIngredients, old(store.availableIngredients), old(newIngredientName)) &&
        newIngredientName == [] && suggestions == []
    {
      if Trim(newIngredientName, Whitespaces) == [] {
        return;
      }
      store.AddAvailableIngredientNamed(newIngredientName);
      SetText([]);
    }

    /** The trash button of the row of ingredient id. */
    method DeleteRow(id: Id)
      modifies store`availableIngredients
      ensures store.availableIngredients == PantryAfterDeleteRow(old(store.availableIngredients), id)
    {
      var index := FirstIndex(store.availableIngredients, IngredientIdIs(id));
      if index.Some? {
        RemoveAtSingleOffset(store.availableIngredients, index.value);
        store.RemoveIngredientFromPantry({index.value});
      }
    }
  }
}
