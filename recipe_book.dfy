/** RecipeBook.java: an ordered collection of recipes (duplicates allowed) and the two
    queries that match it against a storage. */
module RecipeBooks {
  import opened Groceries
  import opened Recipes
  import opened Storage

  /** `a` is `b` with some elements left out and the rest in their order. */
  ghost predicate IsSubsequence<T>(a: seq<T>, b: seq<T>)
    decreases |b|
  {
    if a == [] then true
    else if b == [] then false
    else if a[|a| - 1] == b[|b| - 1] then IsSubsequence(a[..|a| - 1], b[..|b| - 1])
    else IsSubsequence(a, b[..|b| - 1])
  }

  /** `suggestRecipes` on values: exactly the book's recipes whose every ingredient the
      stock covers, kept in book order. */
  function FullMatches(rs: seq<Recipe>, stock: seq<GroceryData>): (r: seq<Recipe>)
    reads rs
    ensures IsSubsequence(r, rs)
    ensures forall i :: 0 <= i < |r| ==> r[i] in rs && Covers(stock, r[i].ingredients)
    ensures forall i :: 0 <= i < |rs| && Covers(stock, rs[i].ingredients) ==> rs[i] in r
  {
    if rs == [] then []
    else
      var init, last := rs[..|rs| - 1], rs[|rs| - 1];
      assert rs == init + [last];
      var r := FullMatches(init, stock);
      if Covers(stock, last.ingredients) then r + [last] else r
  }

  /** `suggestPartialRecipes` on values: exactly the book's recipes with at least one
      ingredient name found in the stock, in any amount, kept in book order. */
  function PartialMatches(rs: seq<Recipe>, stock: seq<GroceryData>): (r: seq<Recipe>)
    reads rs
    ensures IsSubsequence(r, rs)
    ensures forall i :: 0 <= i < |r| ==> r[i] in rs && AnyPresent(stock, r[i].ingredients)
    ensures forall i :: 0 <= i < |rs| && AnyPresent(stock, rs[i].ingredients) ==> rs[i] in r
  {
    if rs == [] then []
    else
      var init, last := rs[..|rs| - 1], rs[|rs| - 1];
      assert rs == init + [last];
      var r := PartialMatches(init, stock);
      if AnyPresent(stock, last.ingredients) then r + [last] else r
  }

  /** One more recipe of the book joins the full matches exactly when the stock covers it. */
  lemma FullMatchesStep(rs: seq<Recipe>, stock: seq<GroceryData>, i: nat)
    requires i < |rs|
    ensures FullMatches(rs[..i + 1], stock) ==
      if Covers(stock, rs[i].ingredients) then FullMatches(rs[..i], stock) + [rs[i]]
      else FullMatches(rs[..i], stock)
  {
    assert rs[..i + 1][..i] == rs[..i];
  }

  /** One more recipe of the book joins the partial matches exactly when it shares an
      ingredient name with the stock. */
  lemma PartialMatchesStep(rs: seq<Recipe>, stock: seq<GroceryData>, i: nat)
    requires i < |rs|
    ensures PartialMatches(rs[..i + 1], stock) ==
      if AnyPresent(stock, rs[i].ingredients) then PartialMatches(rs[..i], stock) + [rs[i]]
      else PartialMatches(rs[..i], stock)
  {
    assert rs[..i + 1][..i] == rs[..i];
  }

  /** A recipe is a full match exactly when it is in the book and the stock covers it. */
  lemma FullMatchMember(rs: seq<Recipe>, stock: seq<GroceryData>, x: Recipe)
    ensures x in FullMatches(rs, stock) <==> x in rs && Covers(stock, x.ingredients)
  {
    var r := FullMatches(rs, stock);
    if x in r {
      var k :| 0 <= k < |r| && r[k] == x;
    }
    if x in rs && Covers(stock, x.ingredients) {
      var k :| 0 <= k < |rs| && rs[k] == x;
    }
  }

  /** A recipe is a partial match exactly when it is in the book and shares an ingredient
      name with the stock. */
  lemma PartialMatchMember(rs: seq<Recipe>, stock: seq<GroceryData>, x: Recipe)
    ensures x in PartialMatches(rs, stock) <==> x in rs && AnyPresent(stock, x.ingredients)
  {
    var r := PartialMatches(rs, stock);
    if x in r {
      var k :| 0 <= k < |r| && r[k] == x;
    }
    if x in rs && AnyPresent(stock, x.ingredients) {
      var k :| 0 <= k < |rs| && rs[k] == x;
    }
  }

  /** The partial matches against a storage are exactly the book's recipes with an
      ingredient that the storage search finds. */
  lemma PartialMatchesFound(rs: seq<Recipe>, storage: FoodStorage)
    ensures forall x :: x in PartialMatches(rs, storage.Items()) <==>
      x in rs
      && exists i :: 0 <= i < |x.ingredients| && storage.SearchGrocery(x.ingredients[i].name) != null
  {
    forall x | true
      ensures x in PartialMatches(rs, storage.Items()) <==>
        x in rs && AnyPresent(storage.Items(), x.ingredients)
    {
      PartialMatchMember(rs, storage.Items(), x);
    }
  }

  /** A recipe with no ingredients is always suggested in full and never partially. */
  lemma EmptyRecipeSuggestedFullNotPartial(rs: seq<Recipe>, stock: seq<GroceryData>, x: Recipe)
    requires x in rs && x.ingredients == []
    ensures x in FullMatches(rs, stock) && x !in PartialMatches(rs, stock)
  {
    FullMatchMember(rs, stock, x);
    PartialMatchMember(rs, stock, x);
    EmptyRecipeFullNotPartial(stock);
  }

  /** Every full match with at least one ingredient is also a partial match. */
  lemma FullMatchIsPartial(rs: seq<Recipe>, stock: seq<GroceryData>, x: Recipe)
    requires x in FullMatches(rs, stock) && x.ingredients != []
    ensures x in PartialMatches(rs, stock)
  {
    FullMatchMember(rs, stock, x);
    PartialMatchMember(rs, stock, x);
    HasImpliesAnyPresent(stock, x.ingredients);
  }

  class RecipeBook {
    var recipes: seq<Recipe>

    /** Starts empty: the branch of the Java constructor where no saved file exists. */
    constructor()
      ensures recipes == []
    {
      recipes := [];
    }

    /** `addRecipe`: appends, with no check on the name, so duplicates are kept. */
    method AddRecipe(recipe: Recipe)
      modifies this
      ensures recipes == old(recipes) + [recipe]
    {
      recipes := recipes + [recipe];
    }

    /** `suggestRecipes`: the recipes the storage has every ingredient for, in book order.
        Modifies neither the book nor the storage. */
    method SuggestRecipes(storage: FoodStorage) returns (suggested: seq<Recipe>)
      ensures suggested == FullMatches(recipes, storage.Items())
      ensures IsSubsequence(suggested, recipes)
      ensures forall x :: x in suggested <==> x in recipes && storage.HasIngredients(x)
    {
      suggested := [];
      var i := 0;
      while i < |recipes|
        invariant 0 <= i <= |recipes|
        invariant suggested == FullMatches(recipes[..i], storage.Items())
      {
        FullMatchesStep(recipes, storage.Items(), i);
        if storage.HasIngredients(recipes[i]) {
          suggested := suggested + [recipes[i]];
        }
        i := i + 1;
      }
      assert recipes[..i] == recipes;
      forall x | true
        ensures x in suggested <==> x in recipes && storage.HasIngredients(x)
      {
        FullMatchMember(recipes, storage.Items(), x);
      }
    }

    /** `suggestPartialRecipes`: the recipes with at least one ingredient name found in
        the storage, whatever the stored amount, in book order. Modifies neither the book
        nor the storage. */
    method SuggestPartialRecipes(storage: FoodStorage) returns (partial: seq<Recipe>)
      ensures partial == PartialMatches(recipes, storage.Items())
      ensures IsSubsequence(partial, recipes)
      ensures forall x :: x in partial <==>
        x in recipes
        && exists i :: 0 <= i < |x.ingredients| && storage.SearchGrocery(x.ingredients[i].name) != null
    {
      partial := [];
      var i := 0;
      while i < |recipes|
        invariant 0 <= i <= |recipes|
        invariant partial == PartialMatches(recipes[..i], storage.Items())
      {
        var recipe := recipes[i];
        var canMakePartially := false;
        var j := 0;
        while j < |recipe.ingredients|
          invariant 0 <= j <= |recipe.ingredients|
          invariant !canMakePartially
          invariant forall m :: 0 <= m < j ==> FindFirst(storage.Items(), recipe.ingredients[m].name).None?
        {
          if storage.SearchGrocery(recipe.ingredients[j].name) != null {
            canMakePartially := true;
            break;
          }
          j := j + 1;
        }
        assert canMakePartially == AnyPresent(storage.Items(), recipe.ingredients);
        PartialMatchesStep(recipes, storage.Items(), i);
        if canMakePartially {
          partial := partial + [recipe];
        }
        i := i + 1;
      }
      assert recipes[..i] == recipes;
      PartialMatchesFound(recipes, storage);
    }
  }
}
