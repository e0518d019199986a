/** The values exchanged between the form, the generation service and the favourites list. */
module RecipeTypes {

  datatype Option<+T> = None | Some(value: T)

  /** The settled outcome of an operation that may throw. */
  datatype Result<+T, +E> = Ok(value: T) | Err(error: E)

  /** Estimated nutrition per serving; each entry is free text such as "350 kcal". */
  datatype Nutrition = Nutrition(calories: string, protein: string, carbs: string, fat: string)

  /** A generated recipe; `nutrition` is a required member. */
  datatype Recipe = Recipe(
    recipeName: string,
    description: string,
    servings: string,
    prepTime: string,
    cookTime: string,
    ingredients: seq<string>,
    instructions: seq<string>,
    nutrition: Nutrition)

  /** The member names of `Recipe`, in declaration order. */
  const RecipeFields: seq<string> :=
    ["recipeName", "description", "servings", "prepTime", "cookTime", "ingredients", "instructions", "nutrition"]

  /** The member names of `Nutrition`, in declaration order. */
  const NutritionFields: seq<string> := ["calories", "protein", "carbs", "fat"]

  /** A value thrown in JavaScript: an `Error` object with its message, or anything else. */
  datatype Thrown = ErrorObject(message: string) | OtherValue
}
