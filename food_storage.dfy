/** FoodStorage.java: the household's groceries, an ordered list in which a name, compared
    ignoring case, identifies an entry. The first half states each operation on the list of
    grocery values; the class FoodStorage performs them on Grocery objects in place. */
module Storage {
  import opened Wrappers
  import opened Text
  import opened Ingredients
  import opened Groceries
  import opened Recipes

  /** `searchGrocery` on values: the index of the first entry answering to the name. */
  function FindFirst(stock: seq<GroceryData>, name: string): (r: Option<nat>)
    ensures r.Some? ==> r.value < |stock| && EqualsIgnoreCase(stock[r.value].name, name)
    ensures r.Some? ==> forall j :: 0 <= j < r.value ==> !EqualsIgnoreCase(stock[j].name, name)
    ensures r.None? <==> forall j :: 0 <= j < |stock| ==> !EqualsIgnoreCase(stock[j].name, name)
  {
    if stock == [] then None
    else if EqualsIgnoreCase(stock[0].name, name) then Some(0)
    else match FindFirst(stock[1..], name)
      case None => None
      case Some(k) => Some(k + 1)
  }

  /** The amount on hand under a name: `grocery != null ? grocery.getAmount() : 0`. */
  function Available(stock: seq<GroceryData>, name: string): real {
    match FindFirst(stock, name)
    case None => 0.0
    case Some(k) => stock[k].amount
  }

  /** No two entries share a name ignoring case. */
  ghost predicate NamesUnique(stock: seq<GroceryData>) {
    forall i, j :: 0 <= i < j < |stock| ==> !EqualsIgnoreCase(stock[i].name, stock[j].name)
  }

  /** Every entry passes the Grocery checks; in particular every stored amount is
      positive. */
  ghost predicate AllValid(stock: seq<GroceryData>) {
    forall i :: 0 <= i < |stock| ==> ValidData(stock[i])
  }

  /** `addGrocery` on values: merge the amount into the first entry answering to the
      incoming name, or append the incoming grocery when none does. On a merge the length
      is kept, only the merged entry's amount changes, and it keeps its own name casing,
      unit, date and price; otherwise the incoming grocery comes last, after the unchanged
      earlier entries. */
  function Added(stock: seq<GroceryData>, g: GroceryData): (r: seq<GroceryData>)
    ensures FindFirst(stock, g.name).Some? ==>
      var k := FindFirst(stock, g.name).value;
      |r| == |stock| && r[k].amount == stock[k].amount + g.amount
      && forall j :: 0 <= j < |stock| && j != k ==> r[j] == stock[j]
    ensures FindFirst(stock, g.name).None? ==> r == stock + [g]
    ensures |r| >= |stock|
    ensures forall j :: 0 <= j < |stock| ==>
      r[j].name == stock[j].name && r[j].unit == stock[j].unit
      && r[j].bestBeforeDate == stock[j].bestBeforeDate
      && r[j].pricePerUnit == stock[j].pricePerUnit
    ensures forall j :: 0 <= j < |stock| && !EqualsIgnoreCase(stock[j].name, g.name) ==>
      r[j] == stock[j]
  {
    match FindFirst(stock, g.name)
    case Some(k) => stock[k := stock[k].(amount := stock[k].amount + g.amount)]
    case None => stock + [g]
  }

  /** Adding a grocery whose name the entry at `k` is the first to answer to adds its
      amount to that entry and leaves every other position as it was. */
  lemma AddedMerges(stock: seq<GroceryData>, g: GroceryData, k: nat)
    requires k < |stock| && EqualsIgnoreCase(stock[k].name, g.name)
    requires forall j :: 0 <= j < k ==> !EqualsIgnoreCase(stock[j].name, g.name)
    ensures Added(stock, g) == stock[k := stock[k].(amount := stock[k].amount + g.amount)]
  {
    FindFirstIs(stock, g.name, k);
  }

  /** `removeGrocery` on values: the new list, and whether an entry was found. The entry
      found loses `amount`; it is deleted when nothing positive is left. */
  function Depleted(stock: seq<GroceryData>, name: string, amount: real)
    : (r: (seq<GroceryData>, bool))
    ensures r.1 <==> FindFirst(stock, name).Some?
    ensures !r.1 ==> r.0 == stock
    ensures |r.0| == |stock| || |r.0| == |stock| - 1
  {
    match FindFirst(stock, name)
    case None => (stock, false)
    case Some(k) =>
      var left := stock[k].amount - amount;
      if left <= 0.0 then (stock[..k] + stock[k + 1..], true)
      else (stock[k := stock[k].(amount := left)], true)
  }

  /** The ingredient is on hand in at least the required amount; the negation of
      `grocery == null || grocery.getAmount() < ingredient.getAmount()`. */
  predicate Sufficient(stock: seq<GroceryData>, ingredient: Ingredient) {
    match FindFirst(stock, ingredient.name)
    case None => false
    case Some(k) => !(stock[k].amount < ingredient.amount)
  }

  /** `hasIngredients` on values (the stock covers the needs): scan the ingredients and answer false at the first one
      that is missing or short. */
  function Covers(stock: seq<GroceryData>, needs: seq<Ingredient>): (r: bool)
    ensures r <==> forall i :: 0 <= i < |needs| ==> Sufficient(stock, needs[i])
  {
    if needs == [] then true
    else if !Sufficient(stock, needs[0]) then false
    else Covers(stock, needs[1..])
  }

  /** Covering a list extended by one ingredient is covering the list and that ingredient. */
  lemma CoversSnoc(stock: seq<GroceryData>, init: seq<Ingredient>, last: Ingredient)
    ensures Covers(stock, init + [last]) <==> Covers(stock, init) && Sufficient(stock, last)
  {
    var needs := init + [last];
    assert forall i :: 0 <= i < |init| ==> needs[i] == init[i];
    assert needs[|init|] == last;
  }

  /** Some ingredient's name is found in storage, in any amount (the inner loop of
      `suggestPartialRecipes`). It sits beside `Covers` because both are questions
      about the stock, and both recipe queries and their lemmas ask them of storage. */
  function AnyPresent(stock: seq<GroceryData>, needs: seq<Ingredient>): (r: bool)
    ensures r <==> exists i :: 0 <= i < |needs| && FindFirst(stock, needs[i].name).Some?
  {
    if needs == [] then false
    else if FindFirst(stock, needs[0].name).Some? then true
    else AnyPresent(stock, needs[1..])
  }

  /** `convertUnits` is a placeholder: the amount comes back unchanged whatever the units. */
  function ConvertUnits(amount: real, fromUnit: string, toUnit: string): (r: real)
    ensures r == amount
  {
    amount
  }

  /** `ArrayList.remove(Object)`: drops the first occurrence, if any. */
  function RemoveFirst<T(==)>(s: seq<T>, x: T): (r: seq<T>)
    ensures x !in s ==> r == s
    ensures x in s ==> |r| == |s| - 1
  {
    if s == [] then []
    else if s[0] == x then s[1..]
    else [s[0]] + RemoveFirst(s[1..], x)
  }

  /** Removing an object whose first occurrence is at `k` deletes position `k` and keeps
      the others in order. */
  lemma {:induction false} RemoveFirstAt<T>(s: seq<T>, x: T, k: nat)
    requires k < |s| && s[k] == x && x !in s[..k]
    ensures RemoveFirst(s, x) == s[..k] + s[k + 1..]
  {
    if k > 0 {
      assert s[1..][..k - 1] == s[..k][1..];
      RemoveFirstAt(s[1..], x, k - 1);
      assert s[..k] == [s[0]] + s[1..][..k - 1];
    }
  }

  // ---------------------------------------------------------------------------------
  // Lemmas about searching, merging and depleting

  /** The first index answering to a name is determined by that property. */
  lemma FindFirstIs(stock: seq<GroceryData>, name: string, k: nat)
    requires k < |stock| && EqualsIgnoreCase(stock[k].name, name)
    requires forall j :: 0 <= j < k ==> !EqualsIgnoreCase(stock[j].name, name)
    ensures FindFirst(stock, name) == Some(k)
  {
  }

  /** Search looks at names only. */
  lemma FindFirstSameNames(a: seq<GroceryData>, b: seq<GroceryData>, name: string)
    requires |a| == |b| && forall j :: 0 <= j < |a| ==> a[j].name == b[j].name
    ensures FindFirst(a, name) == FindFirst(b, name)
  {
    match FindFirst(a, name)
    case None =>
      assert forall j :: 0 <= j < |b| ==> !EqualsIgnoreCase(b[j].name, name) by {
        forall j | 0 <= j < |b| ensures !EqualsIgnoreCase(b[j].name, name) {
          assert !EqualsIgnoreCase(a[j].name, name);
        }
      }
    case Some(k) =>
      FindFirstIs(b, name, k);
  }

  lemma FindFirstAppend(stock: seq<GroceryData>, g: GroceryData, name: string)
    ensures FindFirst(stock + [g], name) ==
      if FindFirst(stock, name).Some? then FindFirst(stock, name)
      else if EqualsIgnoreCase(g.name, name) then Some(|stock|)
      else None
  {
    var s := stock + [g];
    match FindFirst(stock, name)
    case Some(k) =>
      FindFirstIs(s, name, k);
    case None =>
      if EqualsIgnoreCase(g.name, name) {
        FindFirstIs(s, name, |stock|);
      } else {
        assert forall j :: 0 <= j < |s| ==> !EqualsIgnoreCase(s[j].name, name) by {
          forall j | 0 <= j < |s| ensures !EqualsIgnoreCase(s[j].name, name) {
            if j < |stock| { assert s[j] == stock[j]; }
          }
        }
      }
  }

  /** Deleting position `k` shifts every later element down by one. */
  lemma DeleteAt<T>(s: seq<T>, k: nat, r: seq<T>)
    requires k < |s| && r == s[..k] + s[k + 1..]
    ensures |r| == |s| - 1
    ensures forall j :: 0 <= j < |r| ==> r[j] == s[if j < k then j else j + 1]
  {
  }

  /** Deleting an entry that does not answer to a name keeps the first match for that
      name, one place earlier when it came after the deleted entry. */
  lemma FindFirstDeleteOther(stock: seq<GroceryData>, k: nat, name: string)
    requires k < |stock| && !EqualsIgnoreCase(stock[k].name, name)
    ensures var s := stock[..k] + stock[k + 1..];
      match FindFirst(stock, name)
      case None => FindFirst(s, name).None?
      case Some(m) => FindFirst(s, name) == Some(if m < k then m else m - 1)
  {
    var s := stock[..k] + stock[k + 1..];
    DeleteAt(stock, k, s);
    match FindFirst(stock, name)
    case None =>
      assert forall j :: 0 <= j < |s| ==> !EqualsIgnoreCase(s[j].name, name) by {
        forall j | 0 <= j < |s| ensures !EqualsIgnoreCase(s[j].name, name) {
          assert !EqualsIgnoreCase(stock[if j < k then j else j + 1].name, name);
        }
      }
    case Some(m) =>
      var m' := if m < k then m else m - 1;
      assert s[m'] == stock[m];
      forall j | 0 <= j < m' ensures !EqualsIgnoreCase(s[j].name, name) {
        assert !EqualsIgnoreCase(stock[if j < k then j else j + 1].name, name);
      }
      FindFirstIs(s, name, m');
  }

  /** With unique names, deleting the entry that answers to a name leaves none that does. */
  lemma FindFirstDeleteSelf(stock: seq<GroceryData>, k: nat, name: string)
    requires NamesUnique(stock)
    requires k < |stock| && EqualsIgnoreCase(stock[k].name, name)
    ensures FindFirst(stock[..k] + stock[k + 1..], name).None?
  {
    var s := stock[..k] + stock[k + 1..];
    DeleteAt(stock, k, s);
    forall j | 0 <= j < |s| ensures !EqualsIgnoreCase(s[j].name, name) {
      var i := if j < k then j else j + 1;
      assert s[j] == stock[i];
      if i < k {
        assert !EqualsIgnoreCase(stock[i].name, stock[k].name);
      } else {
        assert !EqualsIgnoreCase(stock[k].name, stock[i].name);
      }
    }
  }

  /** Adding keeps names unique and every entry valid (amounts stay positive). */
  lemma AddedKeepsInvariant(stock: seq<GroceryData>, g: GroceryData)
    requires NamesUnique(stock) && AllValid(stock) && ValidData(g)
    ensures NamesUnique(Added(stock, g)) && AllValid(Added(stock, g))
  {
    var r := Added(stock, g);
    if FindFirst(stock, g.name).None? {
      forall i, j | 0 <= i < j < |r| ensures !EqualsIgnoreCase(r[i].name, r[j].name) {
        if j == |stock| {
          assert !EqualsIgnoreCase(stock[i].name, g.name);
        }
      }
    }
  }

  /** Adding raises the amount on hand under the incoming name by the incoming amount,
      whether by merging or by appending, and leaves every other name's amount alone. */
  lemma AddedAvailable(stock: seq<GroceryData>, g: GroceryData, name: string)
    ensures Available(Added(stock, g), name) ==
      if EqualsIgnoreCase(g.name, name) then Available(stock, name) + g.amount
      else Available(stock, name)
  {
    var r := Added(stock, g);
    match FindFirst(stock, g.name)
    case Some(k) =>
      FindFirstSameNames(stock, r, name);
      if EqualsIgnoreCase(g.name, name) {
        FindFirstIs(stock, name, k);
      } else {
        assert !EqualsIgnoreCase(stock[k].name, name);
      }
    case None =>
      FindFirstAppend(stock, g, name);
      if EqualsIgnoreCase(g.name, name) {
        assert forall j :: 0 <= j < |stock| ==> !EqualsIgnoreCase(stock[j].name, g.name);
        assert FindFirst(stock, name).None? by {
          forall j | 0 <= j < |stock| ensures !EqualsIgnoreCase(stock[j].name, name) {
            assert !EqualsIgnoreCase(stock[j].name, g.name);
          }
        }
      }
  }

  /** Depleting keeps names unique and amounts positive: an entry that would drop to zero
      or below is deleted instead. */
  lemma DepletedKeepsInvariant(stock: seq<GroceryData>, name: string, amount: real)
    requires NamesUnique(stock) && AllValid(stock)
    ensures NamesUnique(Depleted(stock, name, amount).0)
    ensures AllValid(Depleted(stock, name, amount).0)
  {
    match FindFirst(stock, name)
    case None =>
    case Some(k) =>
      if stock[k].amount - amount <= 0.0 {
        DeleteKeepsInvariant(stock, k);
      } else {
        var r := Depleted(stock, name, amount).0;
        assert r == stock[k := stock[k].(amount := stock[k].amount - amount)];
        forall i | 0 <= i < |r| ensures r[i].name == stock[i].name && ValidData(r[i]) {
        }
      }
  }

  /** Deleting an entry keeps names unique and every entry valid. */
  lemma DeleteKeepsInvariant(stock: seq<GroceryData>, k: nat)
    requires k < |stock| && NamesUnique(stock) && AllValid(stock)
    ensures NamesUnique(stock[..k] + stock[k + 1..]) && AllValid(stock[..k] + stock[k + 1..])
  {
    var r := stock[..k] + stock[k + 1..];
    DeleteAt(stock, k, r);
    forall i, j | 0 <= i < j < |r| ensures !EqualsIgnoreCase(r[i].name, r[j].name) {
      assert r[i] == stock[if i < k then i else i + 1];
      assert r[j] == stock[if j < k then j else j + 1];
    }
  }

  /** With unique names, depleting the entry found for `name` by `amount` leaves
      `before - amount` on hand when that is positive and nothing otherwise. */
  lemma DepletedAvailableSelf(stock: seq<GroceryData>, name: string, amount: real)
    requires NamesUnique(stock) && FindFirst(stock, name).Some?
    ensures var left := Available(stock, name) - amount;
      Available(Depleted(stock, name, amount).0, name) == if left <= 0.0 then 0.0 else left
  {
    var k := FindFirst(stock, name).value;
    if stock[k].amount - amount <= 0.0 {
      FindFirstDeleteSelf(stock, k, name);
    } else {
      FindFirstSameNames(stock, Depleted(stock, name, amount).0, name);
    }
  }

  /** Depleting `name` leaves the amount on hand under every other name unchanged. */
  lemma DepletedAvailableOther(stock: seq<GroceryData>, name: string, amount: real, other: string)
    requires !EqualsIgnoreCase(name, other)
    ensures Available(Depleted(stock, name, amount).0, other) == Available(stock, other)
  {
    match FindFirst(stock, name)
    case None =>
    case Some(k) =>
      assert !EqualsIgnoreCase(stock[k].name, other);
      var left := stock[k].amount - amount;
      if left <= 0.0 {
        AvailableAfterDelete(stock, k, other);
      } else {
        AvailableAfterUpdate(stock, k, stock[k].(amount := left), other);
      }
  }

  /** Deleting an entry that does not answer to `other` keeps the amount under `other`. */
  lemma AvailableAfterDelete(stock: seq<GroceryData>, k: nat, other: string)
    requires k < |stock| && !EqualsIgnoreCase(stock[k].name, other)
    ensures Available(stock[..k] + stock[k + 1..], other) == Available(stock, other)
  {
    FindFirstDeleteOther(stock, k, other);
    match FindFirst(stock, other)
    case None =>
    case Some(m) =>
      assert (stock[..k] + stock[k + 1..])[if m < k then m else m - 1] == stock[m];
  }

  /** Replacing an entry that does not answer to `other` by one of the same name keeps
      the amount under `other`. */
  lemma AvailableAfterUpdate(stock: seq<GroceryData>, k: nat, d: GroceryData, other: string)
    requires k < |stock| && !EqualsIgnoreCase(stock[k].name, other) && d.name == stock[k].name
    ensures Available(stock[k := d], other) == Available(stock, other)
  {
    FindFirstSameNames(stock, stock[k := d], other);
  }

  /** A recipe without ingredients can always be made, yet shares no ingredient with
      storage. */
  lemma EmptyRecipeFullNotPartial(stock: seq<GroceryData>)
    ensures Covers(stock, []) && !AnyPresent(stock, [])
  {
  }

  /** A recipe with at least one ingredient that can be made shares an ingredient with
      storage. */
  lemma HasImpliesAnyPresent(stock: seq<GroceryData>, needs: seq<Ingredient>)
    requires needs != [] && Covers(stock, needs)
    ensures AnyPresent(stock, needs)
  {
    assert Sufficient(stock, needs[0]);
  }

  /** The values of a list of Grocery objects, in order. */
  function Views(gs: seq<Grocery>): (s: seq<GroceryData>)
    reads gs
    ensures |s| == |gs|
    ensures forall i :: 0 <= i < |gs| ==> s[i] == gs[i].View()
  {
    seq(|gs|, i requires 0 <= i < |gs| reads gs => gs[i].View())
  }

  /** Deleting an object from the list deletes its value from the values. */
  lemma ViewsDelete(gs: seq<Grocery>, k: nat)
    requires k < |gs|
    ensures Views(gs[..k] + gs[k + 1..]) == Views(gs)[..k] + Views(gs)[k + 1..]
  {
    var a, b := Views(gs[..k] + gs[k + 1..]), Views(gs)[..k] + Views(gs)[k + 1..];
    forall j | 0 <= j < |a| ensures a[j] == b[j] {
      if j < k {
        assert (gs[..k] + gs[k + 1..])[j] == gs[j];
      } else {
        assert (gs[..k] + gs[k + 1..])[j] == gs[j + 1];
      }
    }
  }

  /** When only the object at `i` has a new value, the values are the old ones with
      that one position replaced. */
  lemma ViewsUpdate(gs: seq<Grocery>, i: nat, before: seq<GroceryData>)
    requires |gs| == |before| && i < |gs|
    requires forall j :: 0 <= j < |gs| && j != i ==> gs[j].View() == before[j]
    ensures Views(gs) == before[i := gs[i].View()]
  {
  }

  ghost predicate Distinct(gs: seq<Grocery>) {
    forall i, j :: 0 <= i < |gs| && 0 <= j < |gs| && i != j ==> gs[i] != gs[j]
  }

  lemma DistinctAppend(gs: seq<Grocery>, g: Grocery)
    requires Distinct(gs) && g !in gs
    ensures Distinct(gs + [g])
  {
  }

  lemma DistinctDelete(gs: seq<Grocery>, k: nat)
    requires k < |gs| && Distinct(gs)
    ensures Distinct(gs[..k] + gs[k + 1..]) && gs[k] !in gs[..k]
    ensures forall g :: g in gs[..k] + gs[k + 1..] ==> g in gs
  {
    var r := gs[..k] + gs[k + 1..];
    assert forall j :: 0 <= j < |r| ==> r[j] == gs[if j < k then j else j + 1];
  }

  /** Storage holds 1 liter of "Milk"; adding 1 of "milk" (another unit, date and price)
      leaves one entry, still named "Milk", holding 2. */
  lemma MergeScenario(date: int, laterDate: int)
    ensures Added([GroceryData("Milk", 1.0, "liter", date, 20.0)],
                  GroceryData("milk", 1.0, "liters", laterDate, 20.0))
         == [GroceryData("Milk", 2.0, "liter", date, 20.0)]
  {
    var stock := [GroceryData("Milk", 1.0, "liter", date, 20.0)];
    assert Fold("Milk") == Fold("milk");
    FindFirstIs(stock, "milk", 0);
  }

  /** Removing from an empty storage finds nothing and changes nothing. */
  lemma RemoveAbsentScenario(name: string, amount: real)
    ensures Depleted([], name, amount) == ([], false)
  {
  }

  // ---------------------------------------------------------------------------------
  // The class

  class FoodStorage {
    var groceries: seq<Grocery>

    /** Starts empty: the branch of the Java constructor where no saved file exists. */
    constructor()
      ensures groceries == [] && Valid()
    {
      groceries := [];
    }

    /** The values of the stored groceries, in list order. */
    function Items(): (s: seq<GroceryData>)
      reads this, groceries
      ensures |s| == |groceries|
      ensures forall i :: 0 <= i < |groceries| ==> s[i] == groceries[i].View()
    {
      Views(groceries)
    }

    /** The stored Groceries are distinct objects, each valid (so every stored amount is
        positive), and no two share a name ignoring case. */
    ghost predicate Valid()
      reads this, groceries
    {
      Distinct(groceries) && AllValid(Items()) && NamesUnique(Items())
    }

    /** After the amount of the first entry answering to `incoming`'s name has grown by
        `incoming`'s amount, the stored values are `Added(stock, incoming)` and the
        invariant still holds. */
    lemma MergedValid(i: nat, stock: seq<GroceryData>, incoming: GroceryData)
      requires i < |groceries| == |stock| && Distinct(groceries)
      requires NamesUnique(stock) && AllValid(stock) && ValidData(incoming)
      requires EqualsIgnoreCase(stock[i].name, incoming.name)
      requires forall j :: 0 <= j < i ==> !EqualsIgnoreCase(stock[j].name, incoming.name)
      requires forall j :: 0 <= j < |groceries| && j != i ==> groceries[j].View() == stock[j]
      requires groceries[i].View() == stock[i].(amount := stock[i].amount + incoming.amount)
      ensures Items() == Added(stock, incoming) && Valid()
    {
      AddedMerges(stock, incoming, i);
      ViewsUpdate(groceries, i, stock);
      AddedKeepsInvariant(stock, incoming);
    }

    /** After appending a grocery no entry answers to, the stored values are
        `Added(stock, incoming)` and the invariant still holds. */
    lemma AppendedValid(stock: seq<GroceryData>, incoming: GroceryData)
      requires |groceries| == |stock| + 1 && Distinct(groceries)
      requires NamesUnique(stock) && AllValid(stock) && ValidData(incoming)
      requires FindFirst(stock, incoming.name).None?
      requires Views(groceries[..|stock|]) == stock && groceries[|stock|].View() == incoming
      ensures Items() == Added(stock, incoming) && Valid()
    {
      var r := Items();
      forall j | 0 <= j < |r| ensures r[j] == (stock + [incoming])[j] {
        if j < |stock| {
          assert groceries[..|stock|][j] == groceries[j];
        }
      }
      assert r == stock + [incoming];
      AddedKeepsInvariant(stock, incoming);
    }

    /** After the entry at `k`, the first answering to `name`, has been deleted from
        `before`, the stored values are the depleted ones and the invariant still holds. */
    lemma DeletedValid(k: nat, before: seq<Grocery>, stock: seq<GroceryData>, name: string,
                       amount: real)
      requires k < |before| && Distinct(before) && Views(before) == stock
      requires NamesUnique(stock) && AllValid(stock)
      requires FindFirst(stock, name) == Some(k) && stock[k].amount - amount <= 0.0
      requires groceries == before[..k] + before[k + 1..]
      ensures (Items(), true) == Depleted(stock, name, amount) && Valid()
    {
      DistinctDelete(before, k);
      ViewsDelete(before, k);
      DepletedKeepsInvariant(stock, name, amount);
    }

    /** After the amount of the entry at `k`, the first answering to `name`, has dropped
        by `amount` and stayed positive, the stored values are the depleted ones and the
        invariant still holds. */
    lemma ReducedValid(k: nat, stock: seq<GroceryData>, name: string, amount: real)
      requires k < |groceries| == |stock| && Distinct(groceries)
      requires NamesUnique(stock) && AllValid(stock)
      requires FindFirst(stock, name) == Some(k) && stock[k].amount - amount > 0.0
      requires forall j :: 0 <= j < |groceries| && j != k ==> groceries[j].View() == stock[j]
      requires groceries[k].View() == stock[k].(amount := stock[k].amount - amount)
      ensures (Items(), true) == Depleted(stock, name, amount) && Valid()
    {
      var reduced := stock[k := stock[k].(amount := stock[k].amount - amount)];
      assert Depleted(stock, name, amount) == (reduced, true);
      ViewsUpdate(groceries, k, stock);
      assert Items() == reduced;
      DepletedKeepsInvariant(stock, name, amount);
      assert NamesUnique(reduced) && AllValid(reduced);
    }

    /** `searchGrocery`: the first stored object whose name equals the query ignoring
        case, or null. */
    function SearchGrocery(name: string): (g: Grocery?)
      reads this, groceries
      ensures g == null <==>
        forall j :: 0 <= j < |groceries| ==> !EqualsIgnoreCase(groceries[j].name, name)
      ensures g == null <==> FindFirst(Items(), name).None?
      ensures g != null ==> EqualsIgnoreCase(g.name, name)
      ensures g != null ==>
        FindFirst(Items(), name).Some? && g == groceries[FindFirst(Items(), name).value]
        && forall j :: 0 <= j < FindFirst(Items(), name).value ==>
             !EqualsIgnoreCase(groceries[j].name, name)
    {
      match FindFirst(Items(), name)
      case None => null
      case Some(k) => groceries[k]
    }

    /** The for-each search of `addGrocery`: the position of the first stored grocery
        whose name equals `name` ignoring case, or the length when there is none. */
    method IndexOf(name: string) returns (i: nat)
      ensures i <= |groceries|
      ensures i < |groceries| <==> FindFirst(Items(), name).Some?
      ensures i < |groceries| ==> FindFirst(Items(), name) == Some(i)
    {
      ghost var stock := Items();
      i := 0;
      while i < |groceries| && !EqualsIgnoreCase(groceries[i].name, name)
        invariant i <= |groceries|
        invariant forall j :: 0 <= j < i ==> !EqualsIgnoreCase(stock[j].name, name)
      {
        i := i + 1;
      }
      if i < |groceries| {
        FindFirstIs(stock, name, i);
      }
    }

    /** `hasIngredients`: every ingredient of the recipe is stored in at least the
        required amount. Reads storage and recipe and changes neither. */
    function HasIngredients(recipe: Recipe): (r: bool)
      reads this, groceries, recipe
      ensures r <==> forall i :: 0 <= i < |recipe.ingredients| ==>
        SearchGrocery(recipe.ingredients[i].name) != null
        && SearchGrocery(recipe.ingredients[i].name).amount >= recipe.ingredients[i].amount
    {
      Covers(Items(), recipe.ingredients)
    }

    /** `addGrocery`: a name already present (ignoring case) has the incoming amount
        added to its first entry in place; otherwise the incoming object is appended. */
    method AddGrocery(grocery: Grocery)
      requires Valid() && grocery.Valid()
      modifies this, groceries
      ensures Valid()
      ensures Items() == Added(old(Items()), old(grocery.View()))
      ensures groceries == old(groceries) || groceries == old(groceries) + [grocery]
    {
      ghost var stock := Items();
      ghost var incoming := grocery.View();
      // The for-each returns from inside the loop once it has merged; here the search
      // stops at the first match and the merge follows it.
      var i := IndexOf(grocery.name);
      if i < |groceries| {
        var g := groceries[i];
        var _ := g.SetAmount(g.amount + grocery.amount);
        forall j | 0 <= j < |groceries| && j != i ensures groceries[j].View() == stock[j] {
          assert groceries[j] != g;
        }
        MergedValid(i, stock, incoming);
      } else {
        assert grocery !in groceries;
        DistinctAppend(groceries, grocery);
        groceries := groceries + [grocery];
        AppendedValid(stock, incoming);
      }
    }

    /** `removeGrocery`: depletes the entry found by `SearchGrocery`, deleting that object
        from the list when nothing positive is left and otherwise lowering its amount in
        place; answers whether an entry was found. Every other object stays, in order. */
    method RemoveGrocery(name: string, amount: real) returns (found: bool)
      requires Valid()
      modifies this, groceries
      ensures Valid()
      ensures (Items(), found) == Depleted(old(Items()), name, amount)
      ensures var f := FindFirst(old(Items()), name);
        f.Some? && old(Items())[f.value].amount - amount <= 0.0 ==>
          groceries == old(groceries)[..f.value] + old(groceries)[f.value + 1..]
      ensures var f := FindFirst(old(Items()), name);
        !(f.Some? && old(Items())[f.value].amount - amount <= 0.0) ==> groceries == old(groceries)
    {
      ghost var stock := Items();
      var grocery := SearchGrocery(name);
      if grocery != null {
        ghost var k := FindFirst(stock, name).value;
        var newAmount := grocery.amount - amount;
        if newAmount <= 0.0 {
          ghost var before := groceries;
          DistinctDelete(before, k);
          RemoveFirstAt(before, grocery as Grocery, k);
          groceries := RemoveFirst(groceries, grocery as Grocery);
          DeletedValid(k, before, stock, name, amount);
        } else {
          var _ := grocery.SetAmount(newAmount);
          forall j | 0 <= j < |groceries| && j != k ensures groceries[j].View() == stock[j] {
            assert groceries[j] != grocery;
          }
          ReducedValid(k, stock, name, amount);
        }
        return true;
      }
      return false;
    }

    /** `useIngredient`: the same depletion as `removeGrocery`, driven by an ingredient's
        name and amount, with no answer. */
    method UseIngredient(ingredient: Ingredient)
      requires Valid()
      modifies this, groceries
      ensures Valid()
      ensures Items() == Depleted(old(Items()), ingredient.name, ingredient.amount).0
      ensures var f := FindFirst(old(Items()), ingredient.name);
        f.Some? && old(Items())[f.value].amount - ingredient.amount <= 0.0 ==>
          groceries == old(groceries)[..f.value] + old(groceries)[f.value + 1..]
      ensures var f := FindFirst(old(Items()), ingredient.name);
        !(f.Some? && old(Items())[f.value].amount - ingredient.amount <= 0.0) ==>
          groceries == old(groceries)
    {
      var _ := RemoveGrocery(ingredient.name, ingredient.amount);
    }

    /** `clearAllGroceries`: storage is left empty. */
    method ClearAllGroceries()
      modifies this
      ensures groceries == [] && Valid()
    {
      groceries := [];
    }
  }
}
