/** `RecipeStore`: the in-memory recipe list, the master ingredient list and
    the pantry (`availableIngredients`), with the matching rule that decides
    which recipes the pantry can cook. */
module Store {
  import opened Text
  import opened Seqs
  import opened Models

  // ---------------------------------------------------------------- matching

  /** The lower-cased ingredient names of a recipe, as a set. */
  function LowerNames(names: seq<string>): set<string> {
    set n | n in names :: Lower(n)
  }

  /** The lower-cased names of the pantry, as a set. */
  function PantryNames(pantry: seq<Ingredient>): set<string> {
    set i | i in pantry :: Lower(i.name)
  }

  /** A recipe is matched when its lower-cased names are a subset of the
      pantry's lower-cased names. */
  predicate Matches(pantry: seq<Ingredient>, r: Recipe) {
    LowerNames(r.ingredientNames) <= PantryNames(pantry)
  }

  function MatchesPantry(pantry: seq<Ingredient>): Recipe -> bool {
    (r: Recipe) => Matches(pantry, r)
  }

  /** `matchedRecipes`: a stable filter of the recipes by `Matches`. */
  function Matched(recipes: seq<Recipe>, pantry: seq<Ingredient>): seq<Recipe> {
    Filter(recipes, MatchesPantry(pantry))
  }

  /** Matching, stated name by name: every ingredient name of the recipe has a
      pantry entry that is equal to it up to case. */
  lemma MatchesIff(pantry: seq<Ingredient>, r: Recipe)
    ensures Matches(pantry, r) <==>
      forall n :: n in r.ingredientNames ==> exists i :: i in pantry && Lower(i.name) == Lower(n)
  {
    if Matches(pantry, r) {
      forall n | n in r.ingredientNames
        ensures exists i :: i in pantry && Lower(i.name) == Lower(n)
      {
        assert Lower(n) in LowerNames(r.ingredientNames);
      }
    }
  }

  /** A recipe is in `matchedRecipes` exactly when it is a recipe of the store
      and it matches the pantry. */
  lemma MatchedMembers(recipes: seq<Recipe>, pantry: seq<Ingredient>)
    ensures forall r :: r in Matched(recipes, pantry) <==> r in recipes && Matches(pantry, r)
  {
    FilterMembers(recipes, MatchesPantry(pantry));
  }

  /** `matchedRecipes` keeps the store's order. */
  lemma MatchedIsSubsequence(recipes: seq<Recipe>, pantry: seq<Ingredient>)
    ensures IsSubsequence(Matched(recipes, pantry), recipes)
    ensures |Matched(recipes, pantry)| <= |recipes|
  {
    FilterIsSubsequence(recipes, MatchesPantry(pantry));
  }

  /** A recipe without ingredient names matches every pantry, the empty one included. */
  lemma MatchesWithoutNames(pantry: seq<Ingredient>, r: Recipe)
    requires r.ingredientNames == []
    ensures Matches(pantry, r) && Matches([], r)
  {
    assert LowerNames(r.ingredientNames) == {};
  }

  /** Only the set of names counts: repeating or reordering names changes nothing. */
  lemma MatchesIgnoresDuplicates(pantry: seq<Ingredient>, r: Recipe, names: seq<string>)
    requires forall n :: n in names <==> n in r.ingredientNames
    ensures Matches(pantry, r.(ingredientNames := names)) == Matches(pantry, r)
  {
    assert LowerNames(names) == LowerNames(r.ingredientNames);
  }

  /** Only the lower-cased names count: renaming an ingredient to a spelling
      that differs in case changes nothing. */
  lemma MatchesIgnoresCase(pantry: seq<Ingredient>, r: Recipe, k: nat, spelling: string)
    requires k < |r.ingredientNames| && Lower(spelling) == Lower(r.ingredientNames[k])
    ensures Matches(pantry, r.(ingredientNames := r.ingredientNames[k := spelling])) == Matches(pantry, r)
  {
    var names := r.ingredientNames[k := spelling];
    forall x ensures x in LowerNames(names) <==> x in LowerNames(r.ingredientNames) {
      if x in LowerNames(names) {
        var n :| n in names && Lower(n) == x;
        var j :| 0 <= j < |names| && names[j] == n;
        if j == k {
          assert Lower(r.ingredientNames[k]) == x;
        } else {
          assert r.ingredientNames[j] == n;
        }
      }
      if x in LowerNames(r.ingredientNames) {
        var n :| n in r.ingredientNames && Lower(n) == x;
        var j :| 0 <= j < |r.ingredientNames| && r.ingredientNames[j] == n;
        if j == k {
          assert names[k] == spelling;
        } else {
          assert names[j] == n;
        }
      }
    }
    assert LowerNames(names) == LowerNames(r.ingredientNames);
  }

  /** Matching ignores case: a pantry holding "Egg" cooks a recipe that asks for "egg". */
  lemma MatchingIsCaseInsensitiveExample(id: Id, r: Recipe)
    requires r.ingredientNames == ["egg"]
    ensures Matches([Ingredient(id, "Egg", "")], r)
  {
    assert Lower("Egg") == Lower("egg");
    assert LowerNames(r.ingredientNames) == {Lower("egg")};
  }

  /** A recipe naming something the pantry lacks (in any case) is not matched. */
  lemma NotMatchedWhenNameMissing(pantry: seq<Ingredient>, r: Recipe, n: string)
    requires n in r.ingredientNames
    requires forall i :: i in pantry ==> Lower(i.name) != Lower(n)
    ensures !Matches(pantry, r)
  {
    assert Lower(n) in LowerNames(r.ingredientNames);
  }

  /** A pantry of spaghetti, garlic, olive oil and pepper cooks a recipe that
      needs exactly those, and not one that also needs guanciale. */
  lemma MatchingScenario(ids: seq<Id>, r1: Recipe, r2: Recipe)
    requires |ids| == 4
    requires r1.ingredientNames == ["Spaghetti", "Garlic", "Olive Oil", "Pepper"]
    requires r2.ingredientNames == ["Spaghetti", "Guanciale"]
    ensures var pantry := [Ingredient(ids[0], "Spaghetti", ""), Ingredient(ids[1], "Garlic", ""),
                           Ingredient(ids[2], "Olive Oil", ""), Ingredient(ids[3], "Pepper", "")];
      Matches(pantry, r1) && !Matches(pantry, r2)
  {
    var pantry := [Ingredient(ids[0], "Spaghetti", ""), Ingredient(ids[1], "Garlic", ""),
                   Ingredient(ids[2], "Olive Oil", ""), Ingredient(ids[3], "Pepper", "")];
    forall n | n in r1.ingredientNames ensures Lower(n) in PantryNames(pantry) {
      var k :| 0 <= k < 4 && r1.ingredientNames[k] == n;
      assert pantry[k] in pantry && pantry[k].name == n;
    }
    GuancialeNotStocked(pantry);
    NotMatchedWhenNameMissing(pantry, r2, "Guanciale");
  }

  lemma GuancialeNotStocked(pantry: seq<Ingredient>)
    requires forall i :: i in pantry ==> i.name in {"Spaghetti", "Garlic", "Olive Oil", "Pepper"}
    ensures forall i :: i in pantry ==> Lower(i.name) != Lower("Guanciale")
  {
    var g := Lower("Guanciale");
    assert g[0] == 'g' && |g| == 9;
    assert Lower("Spaghetti")[0] == 's' && Lower("Olive Oil")[0] == 'o';
    assert |Lower("Garlic")| == 6 && |Lower("Pepper")| == 6;
  }

  // ---------------------------------------------------- ingredients(for:)

  function NamedIn(names: seq<string>): Ingredient -> bool {
    (i: Ingredient) => Lower(i.name) in LowerNames(names)
  }

  /** `ingredients(for:)`: the master entries named by the recipe, in master order. */
  function IngredientsFor(master: seq<Ingredient>, r: Recipe): seq<Ingredient> {
    Filter(master, NamedIn(r.ingredientNames))
  }

  /** A master entry is listed exactly when one of the recipe's names equals
      its name up to case; the list keeps master order. */
  lemma IngredientsForMembers(master: seq<Ingredient>, r: Recipe)
    ensures forall i :: i in IngredientsFor(master, r) <==>
      i in master && exists n :: n in r.ingredientNames && Lower(n) == Lower(i.name)
    ensures IsSubsequence(IngredientsFor(master, r), master)
  {
    FilterMembers(master, NamedIn(r.ingredientNames));
    FilterIsSubsequence(master, NamedIn(r.ingredientNames));
  }

  // ------------------------------------------------------------------ pantry

  predicate HasId(pantry: seq<Ingredient>, id: Id) {
    exists i :: i in pantry && i.id == id
  }

  predicate DistinctIds(s: seq<Ingredient>) {
    forall i, j :: 0 <= i < j < |s| ==> s[i].id != s[j].id
  }

  /** Removing rows at offsets never brings two entries with the same id together. */
  lemma {:induction false} RemoveAtOffsetsKeepsDistinct(s: seq<Ingredient>, offsets: set<int>)
    requires DistinctIds(s)
    ensures DistinctIds(RemoveAtOffsets(s, offsets))
  {
    if s != [] {
      var front := s[..|s| - 1];
      var last := s[|s| - 1];
      RemoveAtOffsetsKeepsDistinct(front, offsets);
      var kept := RemoveAtOffsets(front, offsets);
      if |s| - 1 !in offsets {
        RemoveAtOffsetsIsSubsequence(front, offsets);
        SubsequenceMembers(kept, front);
        forall i | 0 <= i < |kept| ensures kept[i].id != last.id {
          assert kept[i] in kept;
          var m :| 0 <= m < |front| && front[m] == kept[i];
        }
        var r := kept + [last];
        forall i, j | 0 <= i < j < |r| ensures r[i].id != r[j].id {
          if j == |kept| {
            assert r[i] == kept[i];
          }
        }
      }
    }
  }

  /** `addAvailableIngredient(_:)`: append unless an entry has the same id. */
  function PantryAfterAdd(pantry: seq<Ingredient>, ing: Ingredient): seq<Ingredient> {
    if HasId(pantry, ing.id) then pantry else pantry + [ing]
  }

  /** The pantry grows by the ingredient exactly when its id is new, and the
      ids stay pairwise distinct. */
  lemma PantryAfterAddSpec(pantry: seq<Ingredient>, ing: Ingredient)
    ensures PantryAfterAdd(pantry, ing) == pantry + [ing] <==> !HasId(pantry, ing.id)
    ensures PantryAfterAdd(pantry, ing) == pantry <==> HasId(pantry, ing.id)
    ensures DistinctIds(pantry) ==> DistinctIds(PantryAfterAdd(pantry, ing))
  {
    if !HasId(pantry, ing.id) {
      assert pantry + [ing] != pantry by { assert |pantry + [ing]| != |pantry|; }
      var p := pantry + [ing];
      if DistinctIds(pantry) {
        forall i, j | 0 <= i < j < |p| ensures p[i].id != p[j].id {
          if j == |pantry| {
            assert p[i] in pantry && p[j] == ing;
          }
        }
      }
    }
  }

  function NameIs(target: string): Ingredient -> bool {
    (i: Ingredient) => Lower(i.name) == Lower(target)
  }

  /** The name as `addAvailableIngredient(named:)` prepares it. */
  function PreparedName(name: string): string {
    Capitalize(Trim(name, WhitespacesAndNewlines))
  }

  /** `addAvailableIngredient(named:)`. */
  function PantryAfterAddNamed(master: seq<Ingredient>, pantry: seq<Ingredient>, name: string): seq<Ingredient> {
    var trimmed := PreparedName(name);
    if trimmed == [] then pantry
    else match FirstIndex(master, NameIs(trimmed))
      case None => pantry
      case Some(k) => PantryAfterAdd(pantry, master[k])
  }

  /** A name that is blank after trimming spaces and newlines adds nothing. */
  lemma AddNamedIgnoresBlank(master: seq<Ingredient>, pantry: seq<Ingredient>, name: string)
    requires forall k :: 0 <= k < |name| ==> name[k] in WhitespacesAndNewlines
    ensures PantryAfterAddNamed(master, pantry, name) == pantry
  {
  }

  /** A name that no master entry has, up to case, adds nothing. */
  lemma AddNamedIgnoresUnknown(master: seq<Ingredient>, pantry: seq<Ingredient>, name: string)
    requires forall m :: m in master ==> Lower(m.name) != Lower(Trim(name, WhitespacesAndNewlines))
    ensures PantryAfterAddNamed(master, pantry, name) == pantry
  {
  }

  /** When the trimmed name is known, the pantry after the call is the old
      pantry plus, if its id is new, the FIRST master entry with that name up
      to case; the capitalisation applied by the store makes no difference. */
  lemma AddNamedAddsFirstMatch(master: seq<Ingredient>, pantry: seq<Ingredient>, name: string, k: nat)
    requires Trim(name, WhitespacesAndNewlines) != []
    requires k < |master| && Lower(master[k].name) == Lower(Trim(name, WhitespacesAndNewlines))
    requires forall j :: 0 <= j < k ==> Lower(master[j].name) != Lower(Trim(name, WhitespacesAndNewlines))
    ensures PantryAfterAddNamed(master, pantry, name) == PantryAfterAdd(pantry, master[k])
  {
    var t := Trim(name, WhitespacesAndNewlines);
    var trimmed := Capitalize(t);
    assert Lower(trimmed) == Lower(t) && |trimmed| == |t|;
    assert NameIs(trimmed)(master[k]);
    forall j | 0 <= j < k ensures !NameIs(trimmed)(master[j]) {
    }
    var r := FirstIndex(master, NameIs(trimmed));
    assert r == Some(k);
  }

  /** The named add appends at most one master entry, keeps every existing
      entry in place, and keeps the pantry's ids distinct. */
  lemma AddNamedAppendsAtMostOne(master: seq<Ingredient>, pantry: seq<Ingredient>, name: string)
    ensures var p := PantryAfterAddNamed(master, pantry, name);
      p == pantry || (|p| == |pantry| + 1 && p[..|pantry|] == pantry && p[|pantry|] in master
                      && !HasId(pantry, p[|pantry|].id))
    ensures DistinctIds(pantry) ==> DistinctIds(PantryAfterAddNamed(master, pantry, name))
  {
    var trimmed := PreparedName(name);
    if trimmed != [] {
      var r := FirstIndex(master, NameIs(trimmed));
      if r.Some? {
        PantryAfterAddSpec(pantry, master[r.value]);
        assert (pantry + [master[r.value]])[..|pantry|] == pantry;
      }
    }
  }

  // ----------------------------------------------------------------- recipes

  function RecipeIdIs(id: Id): Recipe -> bool {
    (x: Recipe) => x.id == id
  }

  /** `updateRecipe`: the first recipe with the same id is replaced. */
  function ReplaceFirstById(recipes: seq<Recipe>, r: Recipe): seq<Recipe> {
    match FirstIndex(recipes, RecipeIdIs(r.id))
    case None => recipes
    case Some(k) => recipes[k := r]
  }

  /** The update keeps the length; with no recipe of that id it changes
      nothing; otherwise it replaces the first such recipe and no other position. */
  lemma ReplaceFirstByIdSpec(recipes: seq<Recipe>, r: Recipe)
    ensures |ReplaceFirstById(recipes, r)| == |recipes|
    ensures (forall x :: x in recipes ==> x.id != r.id) ==> ReplaceFirstById(recipes, r) == recipes
    ensures forall k :: (0 <= k < |recipes| && recipes[k].id == r.id &&
      (forall j :: 0 <= j < k ==> recipes[j].id != r.id)) ==> ReplaceFirstById(recipes, r) == recipes[k := r]
  {
    var f := FirstIndex(recipes, RecipeIdIs(r.id));
    if f.Some? {
      assert recipes[f.value] in recipes;
      forall k | 0 <= k < |recipes| && recipes[k].id == r.id && (forall j :: 0 <= j < k ==> recipes[j].id != r.id)
        ensures f.value == k
      {
        assert RecipeIdIs(r.id)(recipes[k]);
      }
    } else {
      forall k | 0 <= k < |recipes| ensures recipes[k].id != r.id {
        assert !RecipeIdIs(r.id)(recipes[k]);
      }
    }
  }

  /** Pairwise distinct recipe ids. */
  predicate DistinctRecipeIds(recipes: seq<Recipe>) {
    forall i, j :: 0 <= i < j < |recipes| ==> recipes[i].id != recipes[j].id
  }

  function RecipeIdNotIn(ids: set<Id>): Recipe -> bool {
    (x: Recipe) => x.id !in ids
  }

  /** `recipes.removeAll { ids.contains($0.id) }`. */
  function RemoveByIds(recipes: seq<Recipe>, ids: set<Id>): seq<Recipe> {
    Filter(recipes, RecipeIdNotIn(ids))
  }

  /** The ids of the rows at the given offsets of a (filtered) list. */
  function IdsAtOffsets(offsets: set<int>, rows: seq<Recipe>): set<Id> {
    set o | o in offsets && 0 <= o < |rows| :: rows[o].id
  }

  /** `removeRecipe(at:from:)`. */
  function RemoveRows(recipes: seq<Recipe>, offsets: set<int>, rows: seq<Recipe>): seq<Recipe> {
    RemoveByIds(recipes, IdsAtOffsets(offsets, rows))
  }

  /** Every recipe sharing an id with a deleted row goes, every other recipe
      stays, and the survivors keep their order. */
  lemma RemoveRowsSpec(recipes: seq<Recipe>, offsets: set<int>, rows: seq<Recipe>)
    requires forall o :: o in offsets ==> 0 <= o < |rows|
    ensures forall o, x :: o in offsets && x in RemoveRows(recipes, offsets, rows) ==> x.id != rows[o].id
    ensures forall x :: x in recipes && (forall o :: o in offsets ==> x.id != rows[o].id) ==>
      x in RemoveRows(recipes, offsets, rows)
    ensures forall x :: x in RemoveRows(recipes, offsets, rows) ==> x in recipes
    ensures IsSubsequence(RemoveRows(recipes, offsets, rows), recipes)
  {
    var ids := IdsAtOffsets(offsets, rows);
    FilterMembers(recipes, RecipeIdNotIn(ids));
    FilterIsSubsequence(recipes, RecipeIdNotIn(ids));
    forall o, x | o in offsets && x in RemoveRows(recipes, offsets, rows) ensures x.id != rows[o].id {
      assert rows[o].id in ids;
    }
  }

  // ------------------------------------------------------------ sample data

  const CarbonaraInstructions: string :=
    "1. Cook the pasta. 2. Fry the guanciale. 3. Mix eggs and cheese. 4. Combine everything and serve."
  const SaladInstructions: string :=
    "1. Slice the tomatoes. 2. Add basil, olive oil, salt, and crushed garlic. 3. Mix and enjoy."
  const CurryInstructions: string :=
    "1. Sauté onion in olive oil. 2. Add chicken and cook through. 3. Stir in curry powder, then add coconut milk. 4. Simmer until sauce thickens. 5. Serve with cooked rice."

  const CarbonaraNames: seq<string> := ["Spaghetti", "Guanciale", "Eggs", "Pecorino Cheese", "Pepper"]
  const SaladNames: seq<string> := ["Tomatoes", "Basil", "Olive Oil", "Salt", "Garlic"]
  const CurryNames: seq<string> :=
    ["Chicken Breast", "Curry Powder", "Coconut Milk", "Rice", "Onion", "Olive Oil", "Salt"]

  /** The three recipes the store falls back to when no saved recipes load;
      their ids are the UUIDs drawn for them. */
  function SampleRecipes(ids: seq<Id>): (r: seq<Recipe>)
    requires |ids| == 3
    ensures |r| == 3 && r[0].id == ids[0] && r[1].id == ids[1] && r[2].id == ids[2]
    ensures !r[0].isFavorite && !r[1].isFavorite && !r[2].isFavorite
  {
    [ NewRecipe(ids[0], "Spaghetti Carbonara", CarbonaraNames, CarbonaraInstructions,
        "fork.knife", category := "Italian"),
      NewRecipe(ids[1], "Tomato Salad", SaladNames, SaladInstructions,
        "leaf.fill", category := "Salad"),
      NewRecipe(ids[2], "Chicken Curry", CurryNames, CurryInstructions,
        "fork.knife.circle.fill", category := "Asian") ]
  }

  function LoadedOr<T>(loaded: Option<seq<T>>, fallback: seq<T>): seq<T> {
    if loaded.Some? then loaded.value else fallback
  }

  function PrefixOf<T>(s: seq<T>, n: nat): (r: seq<T>)
    ensures |r| <= n && |r| <= |s| && r == s[..|r|]
    ensures |s| >= n ==> |r| == n
    ensures |s| <= n ==> r == s
  {
    if |s| <= n then s else s[..n]
  }

  class RecipeStore {
    var recipes: seq<Recipe>
    var masterIngredients: seq<Ingredient>
    var availableIngredients: seq<Ingredient>

    /** `init()`: the master list is what the bundle decoded (empty when that
        failed); the recipes are the saved ones or the sample recipes; the
        pantry is the first five entries of a shuffle of the master list. */
    constructor (masterLoad: Option<seq<Ingredient>>, recipesLoad: Option<seq<Recipe>>,
                 sampleIds: seq<Id>, shuffled: seq<Ingredient>)
      requires |sampleIds| == 3
      requires multiset(shuffled) == multiset(LoadedOr(masterLoad, []))
      ensures masterIngredients == LoadedOr(masterLoad, [])
      ensures recipes == LoadedOr(recipesLoad, SampleRecipes(sampleIds))
      ensures availableIngredients == PrefixOf(shuffled, 5)
      ensures |availableIngredients| <= 5
      ensures forall i :: i in availableIngredients ==> i in masterIngredients
    {
      masterIngredients := LoadedOr(masterLoad, []);
      recipes := LoadedOr(recipesLoad, SampleRecipes(sampleIds));
      availableIngredients := [];
      new;
      if availableIngredients == [] {
        availableIngredients := PrefixOf(shuffled, 5);
      }
      forall i | i in availableIngredients ensures i in masterIngredients {
        assert i in shuffled;
        assert i in multiset(shuffled);
      }
    }

    /** `matchedRecipes`. */
    function MatchedRecipes(): seq<Recipe>
      reads this
    {
      Matched(recipes, availableIngredients)
    }

    /** `ingredients(for:)`. */
    function IngredientsOf(r: Recipe): seq<Ingredient>
      reads this
    {
      IngredientsFor(masterIngredients, r)
    }

    method AddAvailableIngredientNamed(name: string)
      modifies this`availableIngredients
      ensures availableIngredients == PantryAfterAddNamed(masterIngredients, old(availableIngredients), name)
      ensures DistinctIds(old(availableIngredients)) ==> DistinctIds(availableIngredients)
    {
      AddNamedAppendsAtMostOne(masterIngredients, availableIngredients, name);
      var trimmedName := Capitalize(Trim(name, WhitespacesAndNewlines));
      if trimmedName == [] {
        return;
      }
      var found := FirstIndex(masterIngredients, NameIs(trimmedName));
      if found.Some? && !HasId(availableIngredients, masterIngredients[found.value].id) {
        availableIngredients := availableIngredients + [masterIngredients[found.value]];
      }
    }

    method AddAvailableIngredient(ingredient: Ingredient)
      modifies this`availableIngredients
      ensures availableIngredients == PantryAfterAdd(old(availableIngredients), ingredient)
      ensures DistinctIds(old(availableIngredients)) ==> DistinctIds(availableIngredients)
    {
      PantryAfterAddSpec(availableIngredients, ingredient);
      if !HasId(availableIngredients, ingredient.id) {
        availableIngredients := availableIngredients + [ingredient];
      }
    }

    /** `removeIngredientFromPantry(at:)`; an offset out of range traps in Swift. */
    method RemoveIngredientFromPantry(offsets: set<int>)
      requires forall o :: o in offsets ==> 0 <= o < |availableIngredients|
      modifies this`availableIngredients
      ensures availableIngredients == RemoveAtOffsets(old(availableIngredients), offsets)
      ensures |availableIngredients| == |old(availableIngredients)| - |offsets|
      ensures DistinctIds(old(availableIngredients)) ==> DistinctIds(availableIngredients)
    {
      KeptBeforeCount(offsets, |availableIngredients|);
      if DistinctIds(availableIngredients) {
        RemoveAtOffsetsKeepsDistinct(availableIngredients, offsets);
      }
      availableIngredients := RemoveAtOffsets(availableIngredients, offsets);
    }

    method AddRecipe(recipe: Recipe)
      modifies this`recipes
      ensures recipes == old(recipes) + [recipe]
    {
      recipes := recipes + [recipe];
    }

    method UpdateRecipe(recipe: Recipe)
      modifies this`recipes
      ensures recipes == ReplaceFirstById(old(recipes), recipe)
      ensures |recipes| == |old(recipes)|
    {
      var index := FirstIndex(recipes, RecipeIdIs(recipe.id));
      if index.Some? {
        recipes := recipes[index.value := recipe];
      }
    }

    /** `removeRecipe(at:from:)`; an offset out of range of the rows traps in Swift. */
    method RemoveRecipe(offsets: set<int>, filteredRecipes: seq<Recipe>)
      requires forall o :: o in offsets ==> 0 <= o < |filteredRecipes|
      modifies this`recipes
      ensures recipes == RemoveRows(old(recipes), offsets, filteredRecipes)
    {
      var idsToDelete := IdsAtOffsets(offsets, filteredRecipes);
      recipes := RemoveByIds(recipes, idsToDelete);
    }
  }
}
