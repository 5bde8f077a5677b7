# Household food inventory, modelled in Dafny

This project models the core of a household food-inventory program (a Java application
named Wasteless in its own comments): the grocery store `FoodStorage`, the recipe
collection `RecipeBook` with its full and partial matching queries, the `ShoppingList`
derived from a recipe and the storage, and the entity types `Grocery`, `Recipe` and
`Ingredient`.

Each Java class becomes a Dafny module of the same role:

| Java class | Dafny module | form |
|---|---|---|
| `Ingredient` | `Ingredients` (ingredient.dfy) | immutable `datatype Ingredient` |
| `Grocery` | `Groceries` (grocery.dfy) | `class Grocery` whose setters check before they assign; `GroceryData` is the value its getters return |
| `Recipe` | `Recipes` (recipe.dfy) | `class Recipe`, ingredients appended in place |
| `FoodStorage` | `Storage` (food_storage.dfy) | operations stated on `seq<GroceryData>`, and `class FoodStorage` performing them on `Grocery` objects in place |
| `RecipeBook` | `RecipeBooks` (recipe_book.dfy) | filter functions, and `class RecipeBook` whose query methods loop as the Java does |
| `ShoppingList` | `Shopping` (shopping_list.dfy) | shortfall function, and `class ShoppingList` appending in place |

Supporting modules: `Wrappers` (Option, Result, Outcome) and `Text` (Java's
`Character.isWhitespace`, `String.isBlank`, and `equalsIgnoreCase` as equality after ASCII
case folding).

Modelling conventions:

- `double` amounts and prices are `real`; dates are `int`; the wall clock read by
  `setBestBeforeDate` is a `now: int` parameter.
- A Java `null` argument is `None` of an `Option`; a thrown `IllegalArgumentException` is
  the failure branch of an `Outcome`/`Result`, carrying the Java message.
- A Java getter is a read of the Dafny field of the same name. The list getters
  (`getGroceries`, `getRecipes`, `getItems`, `getIngredients`) are reads of the `seq`
  field: a snapshot, not the live list.
- `FoodStorage.Valid()` is the storage invariant: the stored Grocery objects are distinct,
  each passes the Grocery checks (so every stored amount is positive), and no two share a
  name ignoring case. Every mutating method keeps it.
- The storage constructor and the recipe-book constructor start empty, which is what the
  Java constructors do when no saved file exists.
- `useIngredient` in the Java repeats the body of `removeGrocery`; the model has
  `UseIngredient` call `RemoveGrocery` and drop its answer, which behaves the same.
- The test file expects the unit message "Unit cannot be null or empty"
  (src/test/java/GroceryTest.java:113); the code says "Unit cannot be null or blank"
  (src/test/java/Grocery.java:103). The model follows the code.

## Model

| member | source | states |
|---|---|---|
| Text.IsWhitespace | src/test/java/Grocery.java:58 | space, TAB through CR (U+0009–U+000D) and FS through US (U+001C–U+001F) count as whitespace; letters, digits, the controls below U+001C outside U+0009–U+000D and the non-breaking spaces U+00A0, U+2007, U+202F do not |
| Text.IsBlank | src/test/java/Grocery.java:58 | the empty string is blank, and a string is not blank exactly when some character in it is not whitespace |
| Text.EqualsIgnoreCaseEquivalence | src/main/java/edu/ntnu/iir/bidata/FoodStorage.java:35 | name matching ignoring case is reflexive, symmetric and transitive, so it is a sound notion of identity |
| Text.EqualsIgnoreCase | src/main/java/edu/ntnu/iir/bidata/FoodStorage.java:35 | name matching is equality after case folding, so two names that match have the same length |
| Text.EqualsIgnoreCaseCharwise | src/main/java/edu/ntnu/iir/bidata/FoodStorage.java:35 | two names match ignoring case exactly when they have the same length and agree character by character after folding |
| Ingredients.Ingredient.ToString | src/main/java/edu/ntnu/iir/bidata/Ingredient.java:56-58 | the text is the name, then ": ", then the rendered amount, then " ", then the unit, each at its position |
| Groceries.CheckName | src/test/java/Grocery.java:57-62 | a name is accepted exactly when it is non-null and not blank; otherwise "Name cannot be null or blank" |
| Groceries.CheckAmount | src/test/java/Grocery.java:79-84 | an amount is accepted exactly when it is greater than 0 (zero is rejected) with "Amount must be greater than 0" |
| Groceries.CheckUnit | src/test/java/Grocery.java:101-106 | a unit is accepted exactly when it is non-null and not blank; otherwise "Unit cannot be null or blank" |
| Groceries.CheckBestBeforeDate | src/test/java/Grocery.java:123-128 | a date is accepted exactly when it is non-null and not before now (a date equal to now passes) |
| Groceries.CheckPrice | src/test/java/Grocery.java:145-150 | a price is accepted exactly when it is greater than 0, otherwise "Price per unit must be greater than 0" |
| Groceries.Validate | src/test/java/Grocery.java:33-40 | construction succeeds exactly when all five checks pass, and then the getters return exactly the arguments; a failure carries the message of the first failing check in the order name, amount, unit, date, price |
| Groceries.ErrorMessagesDistinct | src/test/java/Grocery.java:57-150 | the five messages differ, so a message identifies the failing check |
| Groceries.Grocery.Unset | src/test/java/Grocery.java:16-20 | the object before the setters run holds placeholders for Java's nulls (empty strings, date 0) and zero amount and price, all of which Create overwrites |
| Groceries.Grocery.Create | src/test/java/Grocery.java:33-40 | the constructor runs the five setters in order: it yields a fresh valid Grocery whose getters return the arguments exactly when Validate succeeds, and otherwise fails with Validate's message |
| Groceries.Grocery.SetName | src/test/java/Grocery.java:57-62 | sets the name when the check passes; a rejected call reports the message and changes nothing |
| Groceries.Grocery.SetAmount | src/test/java/Grocery.java:79-84 | sets the amount when it is positive; a rejected call reports the message and changes nothing |
| Groceries.Grocery.SetUnit | src/test/java/Grocery.java:101-106 | sets the unit when the check passes; a rejected call reports the message and changes nothing |
| Groceries.Grocery.SetBestBeforeDate | src/test/java/Grocery.java:123-128 | sets the date when it is not before now; a rejected call reports the message and changes nothing |
| Groceries.Grocery.SetPricePerUnit | src/test/java/Grocery.java:145-150 | sets the price when it is positive; a rejected call reports the message and changes nothing |
| Groceries.Grocery.CalculateTotalValue | src/test/java/Grocery.java:157-159 | the total value (amount times price per unit) of a valid grocery is positive; it changes nothing |
| Storage.FindFirst | src/main/java/edu/ntnu/iir/bidata/FoodStorage.java:49-54 | the search finds the first entry whose name equals the query ignoring case, and finds nothing exactly when no entry matches |
| Storage.AddedMerges | src/main/java/edu/ntnu/iir/bidata/FoodStorage.java:34-38 | when the entry at k is the first whose name matches the incoming name ignoring case, adding raises exactly that entry's amount by the incoming amount and leaves every other position as it was |
| Storage.Added | src/main/java/edu/ntnu/iir/bidata/FoodStorage.java:33-41 | when a name matches, the length is kept and the first matching entry alone changes, by the incoming amount; otherwise the incoming grocery is appended after the unchanged entries; every earlier entry keeps its name casing, unit, date and price, and entries not answering to the name are untouched |
| Storage.Depleted | src/main/java/edu/ntnu/iir/bidata/FoodStorage.java:64-76 | removal answers true exactly when the search finds an entry; when it answers false the list is unchanged; at most one entry disappears |
| Storage.Covers | src/main/java/edu/ntnu/iir/bidata/FoodStorage.java:124-132 | the stock covers a recipe exactly when every ingredient has a matching entry with amount at least the requirement (equality is enough, an empty recipe is covered) |
| Storage.AnyPresent | src/main/java/edu/ntnu/iir/bidata/RecipeBook.java:59-66 | the inner loop of the partial query finds an ingredient exactly when some ingredient name is in storage, whatever the amount |
| Storage.ConvertUnits | src/main/java/edu/ntnu/iir/bidata/FoodStorage.java:142-145 | the conversion hook returns the amount unchanged whatever the units |
| Storage.RemoveFirst | src/main/java/edu/ntnu/iir/bidata/FoodStorage.java:69 | list removal by object leaves the list unchanged when the object is absent and makes it exactly one shorter when it is present |
| Storage.RemoveFirstAt | src/main/java/edu/ntnu/iir/bidata/FoodStorage.java:69 | when the object's first occurrence is at position k, removal deletes exactly position k and keeps every other element in order |
| Storage.FindFirstIs | src/main/java/edu/ntnu/iir/bidata/FoodStorage.java:49-54 | an index that matches, with no match before it, is the one the search returns |
| Storage.AddedKeepsInvariant | src/main/java/edu/ntnu/iir/bidata/FoodStorage.java:33-41 | adding a valid grocery keeps names unique ignoring case and every entry valid, so amounts stay positive |
| Storage.AddedAvailable | src/main/java/edu/ntnu/iir/bidata/FoodStorage.java:33-41 | after adding, the amount on hand under the incoming name has grown by exactly the incoming amount (merge or append), and every other name's amount is unchanged |
| Storage.DepletedKeepsInvariant | src/main/java/edu/ntnu/iir/bidata/FoodStorage.java:64-76 | removing keeps names unique and every entry valid: an entry that would reach zero or below is deleted instead |
| Storage.DepletedAvailableSelf | src/main/java/edu/ntnu/iir/bidata/FoodStorage.java:66-72 | with unique names, after removing from a found entry the amount on hand is current minus removed when that is positive, and zero (the entry is gone) otherwise |
| Storage.DepletedAvailableOther | src/main/java/edu/ntnu/iir/bidata/FoodStorage.java:64-76 | removal under one name leaves the amount on hand under every other name unchanged |
| Storage.EmptyRecipeFullNotPartial | src/main/java/edu/ntnu/iir/bidata/FoodStorage.java:124-132 | a recipe with no ingredients is covered by any stock yet shares no ingredient with it |
| Storage.HasImpliesAnyPresent | src/main/java/edu/ntnu/iir/bidata/RecipeBook.java:39-72 | a covered recipe with at least one ingredient shares an ingredient with the stock |
| Storage.MergeScenario | src/main/java/edu/ntnu/iir/bidata/FoodStorage.java:33-41 | storage holding 1 of "Milk" plus 1 of "milk" gives one entry named "Milk" holding 2, keeping its unit, date and price |
| Storage.RemoveAbsentScenario | src/main/java/edu/ntnu/iir/bidata/FoodStorage.java:64-76 | removing from an empty storage answers false and leaves it empty |
| Storage.FoodStorage.constructor | src/main/java/edu/ntnu/iir/bidata/FoodStorage.java:23-25 | a new storage is empty and satisfies the storage invariant |
| Storage.FoodStorage.Items | src/main/java/edu/ntnu/iir/bidata/FoodStorage.java:83-85 | the snapshot lists the values of the stored groceries in list order |
| Storage.FoodStorage.SearchGrocery | src/main/java/edu/ntnu/iir/bidata/FoodStorage.java:49-54 | returns the first stored object whose name equals the query ignoring case, or null exactly when no stored name matches |
| Storage.FoodStorage.HasIngredients | src/main/java/edu/ntnu/iir/bidata/FoodStorage.java:124-132 | true exactly when, for every recipe ingredient, the search finds a grocery whose amount is at least the requirement |
| Storage.FoodStorage.IndexOf | src/main/java/edu/ntnu/iir/bidata/FoodStorage.java:34-39 | the for-each search of addGrocery stops at the first stored grocery whose name matches ignoring case, which is the entry the search function finds, and runs to the end exactly when none matches |
| Storage.FoodStorage.AddGrocery | src/main/java/edu/ntnu/iir/bidata/FoodStorage.java:33-41 | the first entry matching the incoming name gets the incoming amount added in place, otherwise the incoming object is appended; the storage invariant is kept |
| Storage.FoodStorage.RemoveGrocery | src/main/java/edu/ntnu/iir/bidata/FoodStorage.java:64-76 | depletes the entry found by search as Depleted states and answers whether it was found; when nothing positive is left that object is deleted and the others stay in order, otherwise the list keeps the same objects and the found one holds the lowered amount; the storage invariant is kept |
| Storage.FoodStorage.UseIngredient | src/main/java/edu/ntnu/iir/bidata/FoodStorage.java:152-162 | the same depletion driven by an ingredient's name and amount: the found object is deleted when nothing positive is left, otherwise every object stays and the found one holds the lowered amount; the storage invariant is kept |
| Storage.FoodStorage.ClearAllGroceries | src/main/java/edu/ntnu/iir/bidata/FoodStorage.java:90-92 | leaves storage empty |
| RecipeBooks.FullMatches | src/main/java/edu/ntnu/iir/bidata/RecipeBook.java:39-47 | the full matches are an order-preserving subsequence of the book holding exactly the recipes the stock covers |
| RecipeBooks.FullMatchesStep | src/main/java/edu/ntnu/iir/bidata/RecipeBook.java:41-45 | one more recipe joins the full matches, at the end, exactly when the stock covers it |
| RecipeBooks.FullMatchMember | src/main/java/edu/ntnu/iir/bidata/RecipeBook.java:39-47 | a recipe is a full match exactly when it is in the book and the stock covers it |
| RecipeBooks.PartialMatches | src/main/java/edu/ntnu/iir/bidata/RecipeBook.java:57-72 | the partial matches are an order-preserving subsequence of the book holding exactly the recipes with some ingredient name in storage |
| RecipeBooks.PartialMatchesStep | src/main/java/edu/ntnu/iir/bidata/RecipeBook.java:59-70 | one more recipe joins the partial matches, at the end, exactly when it shares an ingredient name with the stock |
| RecipeBooks.PartialMatchMember | src/main/java/edu/ntnu/iir/bidata/RecipeBook.java:57-72 | a recipe is a partial match exactly when it is in the book and shares an ingredient name with the stock |
| RecipeBooks.PartialMatchesFound | src/main/java/edu/ntnu/iir/bidata/RecipeBook.java:57-72 | the partial matches are exactly the book's recipes with an ingredient that the storage search finds |
| RecipeBooks.EmptyRecipeSuggestedFullNotPartial | src/main/java/edu/ntnu/iir/bidata/RecipeBook.java:39-72 | a recipe with no ingredients is always a full match and never a partial one |
| RecipeBooks.FullMatchIsPartial | src/main/java/edu/ntnu/iir/bidata/RecipeBook.java:39-72 | every full match with at least one ingredient is also a partial match |
| RecipeBooks.RecipeBook.constructor | src/main/java/edu/ntnu/iir/bidata/RecipeBook.java:18-20 | a new book is empty |
| RecipeBooks.RecipeBook.AddRecipe | src/main/java/edu/ntnu/iir/bidata/RecipeBook.java:27-30 | appends the recipe at the end with no uniqueness check |
| RecipeBooks.RecipeBook.SuggestRecipes | src/main/java/edu/ntnu/iir/bidata/RecipeBook.java:39-47 | returns exactly the recipes for which the storage has all ingredients, in book order, changing neither book nor storage |
| RecipeBooks.RecipeBook.SuggestPartialRecipes | src/main/java/edu/ntnu/iir/bidata/RecipeBook.java:57-72 | returns exactly the recipes with at least one ingredient found by the storage search, in book order, changing neither book nor storage; the inner loop stops at the first ingredient found |
| Recipes.Recipe.constructor | src/main/java/edu/ntnu/iir/bidata/Recipe.java:21-24 | stores the name unvalidated; the ingredient list starts empty and the description unset |
| Recipes.Recipe.AddIngredient | src/main/java/edu/ntnu/iir/bidata/Recipe.java:40-43 | appends the ingredient at the end; earlier ingredients and the description are unchanged |
| Recipes.Recipe.SetDescription | src/main/java/edu/ntnu/iir/bidata/Recipe.java:68-70 | replaces the description and leaves the ingredients unchanged |
| Shopping.Shortage | src/main/java/edu/ntnu/iir/bidata/ShoppingList.java:31-33 | an entry keeps the ingredient's name and unit, its amount is required minus available (available 0 when absent), and it is positive when a matching grocery exists but is short |
| Shopping.Shortfall | src/main/java/edu/ntnu/iir/bidata/ShoppingList.java:28-36 | the entries generated for a recipe never outnumber its ingredients |
| Shopping.ShortfallStep | src/main/java/edu/ntnu/iir/bidata/ShoppingList.java:29-34 | one more ingredient adds its shortage at the end exactly when it is not on hand in the required amount |
| Shopping.ShortfallEmptyIffCovered | src/main/java/edu/ntnu/iir/bidata/ShoppingList.java:28-36 | nothing is appended exactly when the storage has all the recipe's ingredients |
| Shopping.ShortfallEntries | src/main/java/edu/ntnu/iir/bidata/ShoppingList.java:28-36 | every missing or short ingredient contributes its shortage entry, every entry is such a shortage, and there are at most as many entries as ingredients |
| Shopping.ShortfallScenario | src/main/java/edu/ntnu/iir/bidata/ShoppingList.java:28-36 | needing 2 kg flour and 1 L milk with 0.5 L milk stored gives 2 kg flour then 0.5 L milk |
| Shopping.LookupAgrees | src/main/java/edu/ntnu/iir/bidata/ShoppingList.java:30-33 | the test on the object the search returns (null, or less than required) holds exactly when the ingredient is not on hand in the required amount, and the entry it builds is the shortage |
| Shopping.ShortageOf | src/main/java/edu/ntnu/iir/bidata/ShoppingList.java:30-34 | one pass of the loop yields an entry exactly when the ingredient is missing or short, and that entry is its shortage |
| Shopping.ShoppingList.constructor | src/main/java/edu/ntnu/iir/bidata/ShoppingList.java:10 | a new list is empty |
| Shopping.ShoppingList.AddItem | src/main/java/edu/ntnu/iir/bidata/ShoppingList.java:17-19 | appends exactly the given ingredient with no merging by name |
| Shopping.ShoppingList.GenerateShoppingList | src/main/java/edu/ntnu/iir/bidata/ShoppingList.java:28-36 | appends the shortfall of the recipe against the storage after the unchanged earlier items; storage and recipe are not modified |

## Left out

- Persistence: `saveToFile` and `loadFromFile` of FoodStorage and RecipeBook (Java object
  serialization to `groceries.dat` and `recipes.dat`) are file I/O in a foreign format; the
  constructors model only the empty start, and `AddRecipe` only the in-memory append.
- `UserInterface.java` (console menus, input parsing, date handling, display sorting) and
  `Main.java` (process entry point) are I/O around the core. The missing-amount rule the
  menu repeats while browsing partial matches is the rule `Shopping.Shortage` states.
- Floating point: amounts and prices are exact reals; IEEE rounding is not modelled.
- `Grocery.toString` and `Recipe.toString`: `%.2f` and date formatting and Java's list
  rendering are not modelled.
- Ingredients.Ingredient.ToString: Java's rendering of a `double` is a parameter, so the
  contract fixes the layout around the number but not its digits.
- Text.EqualsIgnoreCase: `equalsIgnoreCase` is modelled with ASCII case folding;
  Java also folds non-ASCII letters, which the model treats as distinct.
- Null names and units in `Recipe` and `Ingredient`, null Grocery or Recipe arguments and
  the resulting `NullPointerException`s: Dafny strings and object parameters are never null.
- Aliasing through the live lists returned by the getters, and callers mutating a stored
  Grocery (for example renaming it) behind the storage's back, are not modelled; the
  storage invariant assumes the storage alone changes its groceries.
- The wall clock: "now" is a parameter of `SetBestBeforeDate` and `Create`; a stored
  grocery's date is not re-checked later, so the storage invariant does not mention dates.
