/** Ingredient.java: an immutable named quantity with a unit, used both as a recipe
    requirement and as a shopping-list entry. No field is validated. */
module Ingredients {

  /** The three fields are set once by the constructor and only read by the getters,
      so the Java class is a value. Any name, amount (zero or negative included) and
      unit is accepted. */
  datatype Ingredient = Ingredient(name: string, amount: real, unit: string)
  {
    /** `toString`: the name, ": ", the rendered amount, " ", the unit. Java's
        rendering of a `double` is supplied as `render`. */
    function ToString(render: real -> string): (s: string)
      ensures |s| == |name| + 2 + |render(amount)| + 1 + |unit|
      ensures s[..|name|] == name && s[|name|..|name| + 2] == ": "
      ensures s[|name| + 2..|s| - |unit| - 1] == render(amount)
      ensures s[|s| - |unit| - 1..] == " " + unit
    {
      name + ": " + render(amount) + " " + unit
    }
  }
}
