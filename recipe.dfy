/** The app's value records: a pantry/master-list `Ingredient` and a `Recipe`.
    Identities are opaque integers standing for UUIDs; where the app draws a
    fresh UUID, the model takes it as a parameter. */
module Models {

  type Id = int

  /** An ingredient. Its `quantity: Double` is not modelled (no rule reads it). */
  datatype Ingredient = Ingredient(id: Id, name: string, unit: string)

  /** A recipe. `id`, `name`, `ingredientNames`, `instructions` and `symbolName`
      are `let` fields; only `isFavorite` and `category` are `var`. */
  datatype Recipe = Recipe(
    id: Id,
    name: string,
    ingredientNames: seq<string>,
    instructions: string,
    symbolName: string,
    isFavorite: bool,
    category: string)

  /** `Ingredient.init(id:name:quantity:unit:)` with its default unit. */
  function NewIngredient(id: Id, name: string, unit: string := ""): Ingredient {
    Ingredient(id, name, unit)
  }

  /** `Recipe.init(...)` with its defaults `isFavorite = false`, `category = ""`. */
  function NewRecipe(id: Id, name: string, ingredientNames: seq<string>, instructions: string,
                     symbolName: string, isFavorite: bool := false, category: string := ""): Recipe
  {
    Recipe(id, name, ingredientNames, instructions, symbolName, isFavorite, category)
  }

  lemma IngredientDefaults(id: Id, name: string)
    ensures NewIngredient(id, name).unit == ""
    ensures NewIngredient(id, name).id == id && NewIngredient(id, name).name == name
  {
  }

  lemma RecipeDefaults(id: Id, name: string, names: seq<string>, instructions: string, symbolName: string)
    ensures !NewRecipe(id, name, names, instructions, symbolName).isFavorite
    ensures NewRecipe(id, name, names, instructions, symbolName).category == ""
  {
  }

  /** The initialiser stores the ingredient names as given: order and duplicates kept. */
  lemma RecipeStoresNames(id: Id, name: string, names: seq<string>, instructions: string,
                          symbolName: string, isFavorite: bool, category: string)
    ensures NewRecipe(id, name, names, instructions, symbolName, isFavorite, category).ingredientNames == names
  {
  }

  /** The two in-place updates a `Recipe` allows: its `var` fields. */
  function WithFavorite(r: Recipe, isFavorite: bool): Recipe {
    r.(isFavorite := isFavorite)
  }

  function WithCategory(r: Recipe, category: string): Recipe {
    r.(category := category)
  }

  /** The fixed part of a recipe, set once at construction. */
  predicate SameFixedFields(a: Recipe, b: Recipe) {
    a.id == b.id && a.name == b.name && a.ingredientNames == b.ingredientNames &&
    a.instructions == b.instructions && a.symbolName == b.symbolName
  }

  /** Neither mutation touches the `let` fields, and each changes only its own field. */
  lemma MutationsKeepFixedFields(r: Recipe, isFavorite: bool, category: string)
    ensures SameFixedFields(WithFavorite(r, isFavorite), r)
    ensures SameFixedFields(WithCategory(r, category), r)
    ensures WithFavorite(r, isFavorite).category == r.category
    ensures WithCategory(r, category).isFavorite == r.isFavorite
  {
  }

  /** A JSON value, as far as the decoder distinguishes it. */
  datatype JsonValue = JsonString(s: string) | JsonNull | JsonOther

  datatype DecodeError = KeyNotFound(key: string) | ValueNotFound(key: string) | TypeMismatch(key: string)

  datatype DecodeResult = Decoded(ingredient: Ingredient) | Failed(error: DecodeError)

  /** `Ingredient.init(from:)`: only the `name` key is read; the id is the
      fresh UUID drawn during decoding and the unit is empty. */
  function DecodeIngredient(fields: map<string, JsonValue>, freshId: Id): (r: DecodeResult)
    ensures r.Decoded? <==> "name" in fields && fields["name"].JsonString?
    ensures r.Decoded? ==> r.ingredient == Ingredient(freshId, fields["name"].s, "")
    ensures "name" !in fields ==> r == Failed(KeyNotFound("name"))
    ensures "name" in fields && fields["name"].JsonNull? ==> r == Failed(ValueNotFound("name"))
    ensures "name" in fields && fields["name"].JsonOther? ==> r == Failed(TypeMismatch("name"))
  {
    if "name" !in fields then Failed(KeyNotFound("name"))
    else match fields["name"]
      case JsonString(s) => Decoded(Ingredient(freshId, s, ""))
      case JsonNull => Failed(ValueNotFound("name"))
      case JsonOther => Failed(TypeMismatch("name"))
  }

  /** Keys other than `name` have no effect on the decoded ingredient. */
  lemma DecodeReadsOnlyName(f1: map<string, JsonValue>, f2: map<string, JsonValue>, freshId: Id)
    requires ("name" in f1 <==> "name" in f2)
    requires "name" in f1 ==> f1["name"] == f2["name"]
    ensures DecodeIngredient(f1, freshId) == DecodeIngredient(f2, freshId)
  {
  }

  /** Decoding the same object twice gives two ingredients that differ in id. */
  lemma DecodeTwiceGivesDistinctIds(fields: map<string, JsonValue>, id1: Id, id2: Id)
    requires id1 != id2
    requires DecodeIngredient(fields, id1).Decoded?
    ensures DecodeIngredient(fields, id2).Decoded?
    ensures DecodeIngredient(fields, id1).ingredient.name == DecodeIngredient(fields, id2).ingredient.name
    ensures DecodeIngredient(fields, id1).ingredient != DecodeIngredient(fields, id2).ingredient
  {
  }
}
