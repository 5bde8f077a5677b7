/** ShoppingList.java: an append-only, never-merged list of ingredients to buy, filled
    by hand or derived from a recipe and a storage. */
module Shopping {
  import opened Ingredients
  import opened Groceries
  import opened Recipes
  import opened Storage
  import opened Text
  import opened Wrappers

  /** The entry bought for an ingredient: its name and unit, and the required amount less
      what is on hand (nothing, when the name is absent). */
  function Shortage(stock: seq<GroceryData>, ingredient: Ingredient): (e: Ingredient)
    ensures e.name == ingredient.name && e.unit == ingredient.unit
    ensures FindFirst(stock, ingredient.name).None? ==> e.amount == ingredient.amount
    ensures FindFirst(stock, ingredient.name).Some? ==>
      e.amount == ingredient.amount - stock[FindFirst(stock, ingredient.name).value].amount
    ensures FindFirst(stock, ingredient.name).Some? && !Sufficient(stock, ingredient) ==>
      e.amount > 0.0
  {
    Ingredient(ingredient.name, ingredient.amount - Available(stock, ingredient.name), ingredient.unit)
  }

  /** What `generateShoppingList` appends: one entry per ingredient that is missing or
      short, in recipe order, so never more entries than ingredients. */
  function Shortfall(stock: seq<GroceryData>, needs: seq<Ingredient>): (r: seq<Ingredient>)
    ensures |r| <= |needs|
  {
    if needs == [] then []
    else
      var init := Shortfall(stock, needs[..|needs| - 1]);
      var last := needs[|needs| - 1];
      if !Sufficient(stock, last) then init + [Shortage(stock, last)] else init
  }

  /** One more ingredient adds its shortage exactly when it is not on hand in the
      required amount. */
  lemma ShortfallStep(stock: seq<GroceryData>, needs: seq<Ingredient>, i: nat)
    requires i < |needs|
    ensures Shortfall(stock, needs[..i + 1]) ==
      if Sufficient(stock, needs[i]) then Shortfall(stock, needs[..i])
      else Shortfall(stock, needs[..i]) + [Shortage(stock, needs[i])]
  {
    assert needs[..i + 1][..i] == needs[..i];
  }

  /** Nothing is to be bought exactly when the stock covers the recipe. */
  lemma {:induction false} ShortfallEmptyIffCovered(stock: seq<GroceryData>, needs: seq<Ingredient>)
    ensures Shortfall(stock, needs) == [] <==> Covers(stock, needs)
  {
    if needs != [] {
      var init, last := needs[..|needs| - 1], needs[|needs| - 1];
      assert needs == init + [last];
      ShortfallEmptyIffCovered(stock, init);
      CoversSnoc(stock, init, last);
    }
  }

  /** The entries are exactly the shortages of the missing or short ingredients: every
      such ingredient contributes its shortage, and every entry is one. */
  lemma {:induction false} ShortfallEntries(stock: seq<GroceryData>, needs: seq<Ingredient>)
    ensures forall k :: 0 <= k < |needs| && !Sufficient(stock, needs[k]) ==>
      Shortage(stock, needs[k]) in Shortfall(stock, needs)
    ensures forall e :: e in Shortfall(stock, needs) ==>
      exists k :: 0 <= k < |needs| && !Sufficient(stock, needs[k]) && e == Shortage(stock, needs[k])
  {
    if needs != [] {
      var init := needs[..|needs| - 1];
      ShortfallEntries(stock, init);
      assert forall i :: 0 <= i < |init| ==> init[i] == needs[i];
    }
  }

  /** A recipe needs 2 kg of flour and 1 L of milk and storage holds 0.5 L of milk:
      2 kg of flour and 0.5 L of milk are to be bought. */
  lemma ShortfallScenario(date: int)
    ensures Shortfall([GroceryData("Milk", 0.5, "L", date, 20.0)],
                      [Ingredient("Flour", 2.0, "kg"), Ingredient("Milk", 1.0, "L")])
         == [Ingredient("Flour", 2.0, "kg"), Ingredient("Milk", 0.5, "L")]
  {
    var stock := [GroceryData("Milk", 0.5, "L", date, 20.0)];
    var needs := [Ingredient("Flour", 2.0, "kg"), Ingredient("Milk", 1.0, "L")];
    FindFirstIs(stock, "Milk", 0);
    assert Fold("Milk")[0] != Fold("Flour")[0];
    assert FindFirst(stock, "Flour").None?;
    assert !Sufficient(stock, needs[0]) && !Sufficient(stock, needs[1]);
    assert Shortage(stock, needs[0]) == Ingredient("Flour", 2.0, "kg");
    assert Shortage(stock, needs[1]) == Ingredient("Milk", 0.5, "L");
    assert needs[..1] == [needs[0]] && needs[..1][..0] == [];
    assert Shortfall(stock, needs[..1]) == [Shortage(stock, needs[0])];
  }

  /** The test `generateShoppingList` makes on the object `searchGrocery` returns agrees
      with `Sufficient`, and the entry it builds is `Shortage`. */
  lemma LookupAgrees(storage: FoodStorage, ingredient: Ingredient, grocery: Grocery?)
    requires grocery == storage.SearchGrocery(ingredient.name)
    ensures (grocery == null || grocery.amount < ingredient.amount)
      <==> !Sufficient(storage.Items(), ingredient)
    ensures grocery == null || grocery.amount < ingredient.amount ==>
      Ingredient(ingredient.name,
                 ingredient.amount - (if grocery != null then grocery.amount else 0.0),
                 ingredient.unit)
      == Shortage(storage.Items(), ingredient)
  {
    if grocery != null {
      var k := FindFirst(storage.Items(), ingredient.name).value;
      assert grocery.amount == storage.Items()[k].amount;
    }
  }

  /** The body of `generateShoppingList`'s loop for one ingredient: the entry it appends,
      if any. */
  method ShortageOf(ingredient: Ingredient, storage: FoodStorage) returns (entry: Option<Ingredient>)
    ensures entry.Some? <==> !Sufficient(storage.Items(), ingredient)
    ensures entry.Some? ==> entry.value == Shortage(storage.Items(), ingredient)
  {
    var grocery := storage.SearchGrocery(ingredient.name);
    LookupAgrees(storage, ingredient, grocery);
    if grocery == null || grocery.amount < ingredient.amount {
      var neededAmount := ingredient.amount - (if grocery != null then grocery.amount else 0.0);
      entry := Some(Ingredient(ingredient.name, neededAmount, ingredient.unit));
    } else {
      entry := None;
    }
  }

  class ShoppingList {
    var items: seq<Ingredient>

    constructor()
      ensures items == []
    {
      items := [];
    }

    /** `addItem`: appends exactly the given ingredient; nothing is merged by name. */
    method AddItem(ingredient: Ingredient)
      modifies this
      ensures items == old(items) + [ingredient]
    {
      items := items + [ingredient];
    }

    /** `generateShoppingList`: appends the shortfall of the recipe against the storage;
        the earlier items stay as they were, and storage and recipe are not changed. */
    method GenerateShoppingList(recipe: Recipe, storage: FoodStorage)
      modifies this
      ensures items == old(items) + Shortfall(storage.Items(), recipe.ingredients)
    {
      var needs := recipe.ingredients;
      // Nothing else can see `items` while the loop runs, so the entries are gathered
      // first and appended in one step, in the same order.
      var shortfall := [];
      for i := 0 to |needs|
        invariant shortfall == Shortfall(storage.Items(), needs[..i])
        modifies {}
      {
        var entry := ShortageOf(needs[i], storage);
        ShortfallStep(storage.Items(), needs, i);
        if entry.Some? {
          shortfall := shortfall + [entry.value];
        }
      }
      assert needs[..|needs|] == needs;
      items := items + shortfall;
    }
  }
}
