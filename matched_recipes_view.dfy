/** The "Recipes for You" screen: a deck of matched recipes shown as cards,
    and the drag gesture on each card (`RecipeCardWrapper`) that previews a
    like or a dislike and, past a threshold, swipes the card away. */
module MatchedRecipesView {
  import opened Text
  import opened Seqs
  import opened Models
  import opened Store

  /** `CGSize`: a drag translation. */
  datatype Size = Size(width: real, height: real)

  const Zero: Size := Size(0.0, 0.0)

  /** Horizontal displacement beyond which the card previews a like or a dislike. */
  const PreviewThreshold: real := 50.0

  /** Horizontal displacement beyond which releasing the card swipes it away. */
  const RemoveThreshold: real := 150.0

  function Abs(x: real): (r: real)
    ensures r >= 0.0 && (r == x || r == -x)
  {
    if x < 0.0 then -x else x
  }

  /** The `isLiked` preview for a horizontal displacement dx. */
  function LikeFor(dx: real): (r: Option<bool>)
    ensures r == Some(true) <==> dx > PreviewThreshold
    ensures r == Some(false) <==> dx < -PreviewThreshold
    ensures r == None <==> -PreviewThreshold <= dx <= PreviewThreshold
  {
    if dx > PreviewThreshold then Some(true)
    else if dx < -PreviewThreshold then Some(false)
    else None
  }

  datatype Color = Green | Red | Clear

  /** The tint laid over the card. */
  function OverlayColor(isLiked: Option<bool>): (c: Color)
    ensures c == Green <==> isLiked == Some(true)
    ensures c == Red <==> isLiked == Some(false)
    ensures c == Clear <==> isLiked == None
  {
    match isLiked
    case Some(liked) => if liked then Green else Red
    case None => Clear
  }

  /** The two `@State` fields of a card. */
  datatype CardState = CardState(translation: Size, isLiked: Option<bool>)

  const Neutral: CardState := CardState(Zero, None)

  /** `onChanged`: the state after one drag sample. */
  function Changed(st: CardState, value: Size): CardState {
    CardState(value, LikeFor(value.width))
  }

  /** `onEnded`: the state after release, and whether `onRemove` was called. */
  function Ended(st: CardState, value: Size): (CardState, bool) {
    if Abs(value.width) > RemoveThreshold then (st, true) else (Neutral, false)
  }

  /** The state after a sequence of drag samples. */
  function Dragged(st: CardState, samples: seq<Size>): CardState
    decreases |samples|
  {
    if samples == [] then st else Dragged(Changed(st, samples[0]), samples[1..])
  }

  /** During a drag, the state depends only on the latest sample: its
      translation, and the preview its width selects. */
  lemma {:induction false} DraggedShowsLastSample(st: CardState, samples: seq<Size>)
    requires samples != []
    ensures Dragged(st, samples) == CardState(samples[|samples| - 1], LikeFor(samples[|samples| - 1].width))
    decreases |samples|
  {
    if |samples| > 1 {
      DraggedShowsLastSample(Changed(st, samples[0]), samples[1..]);
    }
  }

  /** A whole gesture: samples while dragging, then the release. */
  function Gesture(st: CardState, samples: seq<Size>, release: Size): (CardState, bool) {
    Ended(Dragged(st, samples), release)
  }

  /** The outcome of a gesture: the card is swiped away exactly when the
      release is more than 150 points from the start (either way); otherwise
      it springs back to neutral, whatever it showed during the drag. */
  lemma GestureOutcome(st: CardState, samples: seq<Size>, release: Size)
    ensures Gesture(st, samples, release).1 <==> release.width > RemoveThreshold || release.width < -RemoveThreshold
    ensures !Gesture(st, samples, release).1 ==> Gesture(st, samples, release).0 == Neutral
    ensures Gesture(st, samples, release).1 && samples != [] ==>
      Gesture(st, samples, release).0.isLiked == LikeFor(samples[|samples| - 1].width)
  {
    if samples != [] {
      DraggedShowsLastSample(st, samples);
    }
  }

  /** Releasing at +160 or -160 swipes the card away; at +100, -100 or
      exactly +-150 it springs back. */
  lemma GestureExamples(st: CardState)
    ensures Ended(st, Size(160.0, 0.0)).1 && Ended(st, Size(-160.0, 0.0)).1
    ensures Ended(st, Size(100.0, 0.0)) == (Neutral, false)
    ensures Ended(st, Size(-100.0, 0.0)) == (Neutral, false)
    ensures Ended(st, Size(150.0, 0.0)) == (Neutral, false)
    ensures Ended(st, Size(-150.0, 0.0)) == (Neutral, false)
  {
  }

  /** `RecipeCardWrapper`. */
  class RecipeCardWrapper {
    const recipe: Recipe
    var translation: Size
    var isLiked: Option<bool>

    constructor (recipe: Recipe)
      ensures this.recipe == recipe && translation == Zero && isLiked == None
    {
      this.recipe := recipe;
      translation := Zero;
      isLiked := None;
    }

    function State(): CardState
      reads this
    {
      CardState(translation, isLiked)
    }

    function Overlay(): Color
      reads this
    {
      OverlayColor(isLiked)
    }

    method OnChanged(value: Size)
      modifies this`translation, this`isLiked
      ensures State() == Changed(old(State()), value)
      ensures translation == value
      ensures isLiked == LikeFor(value.width)
    {
      translation := value;
      if value.width > PreviewThreshold {
        isLiked := Some(true);
      } else if value.width < -PreviewThreshold {
        isLiked := Some(false);
      } else {
        isLiked := None;
      }
    }

    /** Returns whether the card called its `onRemove` callback. */
    method OnEnded(value: Size) returns (removeCalled: bool)
      modifies this`translation, this`isLiked
      ensures (State(), removeCalled) == Ended(old(State()), value)
      ensures removeCalled <==> Abs(value.width) > RemoveThreshold
      ensures removeCalled ==> translation == old(translation) && isLiked == old(isLiked)
      ensures !removeCalled ==> translation == Zero && isLiked == None
    {
      if Abs(value.width) > RemoveThreshold {
        removeCalled := true;
      } else {
        translation := Zero;
        isLiked := None;
        removeCalled := false;
      }
    }
  }

  // -------------------------------------------------------------- the deck

  /** `matchedRecipes.removeAll { $0.id == id }`. */
  function WithoutId(deck: seq<Recipe>, id: Id): seq<Recipe> {
    Filter(deck, RecipeIdNotIn({id}))
  }

  /** Swiping removes every card of that recipe and keeps every other card,
      in order. */
  lemma WithoutIdSpec(deck: seq<Recipe>, id: Id)
    ensures forall x :: x in WithoutId(deck, id) ==> x.id != id
    ensures forall x :: x in deck && x.id != id ==> x in WithoutId(deck, id)
    ensures IsSubsequence(WithoutId(deck, id), deck)
  {
    FilterMembers(deck, RecipeIdNotIn({id}));
    FilterIsSubsequence(deck, RecipeIdNotIn({id}));
  }

  /** The `zIndex` of the card of recipe id: deck size minus its position. */
  function ZIndex(deck: seq<Recipe>, id: Id): int {
    |deck| - match FirstIndex(deck, RecipeIdIs(id)) case Some(k) => k case None => 0
  }

  /** With distinct ids the card at position i has zIndex count - i, so each
      card is stacked above every later one. */
  lemma ZIndexStacksEarlierOnTop(deck: seq<Recipe>)
    requires DistinctRecipeIds(deck)
    ensures forall i :: 0 <= i < |deck| ==> ZIndex(deck, deck[i].id) == |deck| - i
    ensures forall i, j :: 0 <= i < j < |deck| ==> ZIndex(deck, deck[i].id) > ZIndex(deck, deck[j].id)
  {
    forall i | 0 <= i < |deck| ensures ZIndex(deck, deck[i].id) == |deck| - i {
      var f := FirstIndex(deck, RecipeIdIs(deck[i].id));
      assert RecipeIdIs(deck[i].id)(deck[i]);
    }
  }

  /** The deck the `onReceive(recipeStore.$availableIngredients)` handler
      builds as written: a `@Published` property announces a change before it
      stores the new value, and the handler ignores the announced pantry and
      reads the store, so it matches against the pantry before the change. */
  function DeckOnPantryChangeAsWritten(recipes: seq<Recipe>, oldPantry: seq<Ingredient>,
                                       newPantry: seq<Ingredient>): seq<Recipe> {
    Matched(recipes, oldPantry)
  }

  /** The deck the handler is meant to build: the recipes the new pantry matches. */
  function DeckOnPantryChange(recipes: seq<Recipe>, newPantry: seq<Ingredient>): seq<Recipe> {
    Matched(recipes, newPantry)
  }

  /** As written, the deck lags one change behind: adding the one missing
      ingredient ("egg") to an empty pantry leaves the deck empty, while the
      new pantry matches the recipe. */
  lemma StaleDeckAfterAddingIngredient(r: Recipe, egg: Ingredient)
    requires r.ingredientNames == ["egg"] && egg.name == "egg"
    ensures DeckOnPantryChangeAsWritten([r], [], [egg]) == []
    ensures DeckOnPantryChange([r], [egg]) == [r]
  {
    NotMatchedWhenNameMissing([], r, "egg");
    assert LowerNames(r.ingredientNames) == {Lower("egg")};
    assert Matches([egg], r);
    assert [r][1..] == [];
  }

  /** The corrected deck holds exactly the stored recipes the new pantry
      matches, in store order. */
  lemma DeckOnPantryChangeSpec(recipes: seq<Recipe>, newPantry: seq<Ingredient>)
    ensures forall r :: r in DeckOnPantryChange(recipes, newPantry) <==> r in recipes && Matches(newPantry, r)
    ensures IsSubsequence(DeckOnPantryChange(recipes, newPantry), recipes)
  {
    MatchedMembers(recipes, newPantry);
    MatchedIsSubsequence(recipes, newPantry);
  }

  /** `MatchedRecipesView`: the deck is a snapshot of the store's matched recipes. */
  class MatchedRecipesView {
    const store: RecipeStore
    var matchedRecipes: seq<Recipe>

    constructor (store: RecipeStore)
      ensures this.store == store && matchedRecipes == []
    {
      this.store := store;
      matchedRecipes := [];
    }

    /** `onAppear`: the deck is reset to the store's matched recipes, dropping
        every earlier swipe. */
    method Reload()
      modifies this`matchedRecipes
      ensures matchedRecipes == store.MatchedRecipes()
      ensures forall r :: r in matchedRecipes <==> r in store.recipes && Matches(store.availableIngredients, r)
    {
      matchedRecipes := store.MatchedRecipes();
      MatchedMembers(store.recipes, store.availableIngredients);
    }

    /** `onReceive(recipeStore.$availableIngredients)` as written: it runs when
        the store announces the new pantry, before the store holds it, and
        reads the store's matched recipes, which are those of the old pantry. */
    method ReceivePantryAsWritten(newPantry: seq<Ingredient>)
      modifies this`matchedRecipes
      ensures matchedRecipes == DeckOnPantryChangeAsWritten(store.recipes, store.availableIngredients, newPantry)
    {
      matchedRecipes := store.MatchedRecipes();
    }

    /** The handler as intended: the deck is rebuilt from the announced pantry. */
    method ReceivePantry(newPantry: seq<Ingredient>)
      modifies this`matchedRecipes
      ensures matchedRecipes == DeckOnPantryChange(store.recipes, newPantry)
      ensures forall r :: r in matchedRecipes <==> r in store.recipes && Matches(newPantry, r)
    {
      matchedRecipes := Matched(store.recipes, newPantry);
      DeckOnPantryChangeSpec(store.recipes, newPantry);
    }

    /** The card's `onRemove` callback. */
    method RemoveCard(id: Id)
      modifies this`matchedRecipes
      ensures matchedRecipes == WithoutId(old(matchedRecipes), id)
    {
      matchedRecipes := WithoutId(matchedRecipes, id);
    }

    /** A card's release: the card handles the gesture and, if it calls
        `onRemove`, the deck drops the card's recipe. */
    method Release(card: RecipeCardWrapper, value: Size) returns (removed: bool)
      modifies card`translation, card`isLiked, this`matchedRecipes
      ensures removed <==> Abs(value.width) > RemoveThreshold
      ensures (card.State(), removed) == Ended(old(card.State()), value)
      ensures matchedRecipes == if removed then WithoutId(old(matchedRecipes), card.recipe.id)
                                else old(matchedRecipes)
    {
      removed := card.OnEnded(value);
      if removed {
        RemoveCard(card.recipe.id);
      }
    }

    function CardZIndex(id: Id): int
      reads this
    {
      ZIndex(matchedRecipes, id)
    }
  }
}
