/** Recipe.java: a named, ordered list of ingredient requirements with a free-text
    description. The list only grows, by appending. */
module Recipes {
  import opened Wrappers
  import opened Ingredients

  class Recipe {
    /** The name has no setter and is not validated: fixed at construction. */
    const name: string
    var ingredients: seq<Ingredient>
    /** `None` is Java's null: the description is unset until the first setDescription. */
    var description: Option<string>

    constructor(name: string)
      ensures this.name == name && ingredients == [] && description == None
    {
      this.name := name;
      ingredients := [];
      description := None;
    }

    /** Appends at the end; the earlier ingredients and the description are untouched. */
    method AddIngredient(ingredient: Ingredient)
      modifies this
      ensures ingredients == old(ingredients) + [ingredient]
      ensures description == old(description)
    {
      ingredients := ingredients + [ingredient];
    }

    /** Replaces the description; the ingredients are untouched. */
    method SetDescription(description: Option<string>)
      modifies this
      ensures this.description == description
      ensures ingredients == old(ingredients)
    {
      this.description := description;
    }
  }
}
