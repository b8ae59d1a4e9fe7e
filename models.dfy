/**
 * The persisted entities of the coffee maker backend. Every quantity is a Java `int`
 * in the entities, so the model uses unbounded `int` without wrap-around (no operation
 * of the core comes near 2^31 in its intended use; see README "Left out").
 */
module Models {

  /** An inventory item: `Ingredient` with its generated id, name and amount in stock. */
  datatype Ingredient = Ingredient(id: int, name: string, amount: int)

  /** One requirement of a recipe: an ingredient referenced by NAME and the amount one unit needs. */
  datatype RecipeIngredient = RecipeIngredient(name: string, amount: int)

  /** A catalogue recipe with its price and ordered requirements. */
  datatype Recipe = Recipe(id: int, name: string, price: int, recipeIngredients: seq<RecipeIngredient>)
}
