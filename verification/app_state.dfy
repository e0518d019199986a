/**
 * The `App` component's state and its handlers. Each `useState` slot is a
 * field; each handler is a method that reassigns the fields it sets, with the
 * new value given by the list and string functions of the other modules.
 * `handleSubmit` is split at its `await`: `Submit` runs up to the call and
 * `Complete` runs once the call has settled.
 */
module AppState {
  import opened RecipeTypes
  import opened Favourites
  import opened FormEdits
  import opened Submission
  import opened GeminiService

  /** The labels of the restriction toggle buttons. */
  const DietaryOptions: seq<string> := ["Vegetariano", "Vegano", "Sem Glúten", "Sem Laticínios", "Sem Oleaginosas",
    "Diabetes", "Celíaco", "Ovo Lacto Vegetariano", "Baixo FODMAP", "Keto", "Paleo"]

  /** The options of the meal-type select. */
  const MealTypes: seq<string> := ["Café da Manhã", "Almoço", "Jantar", "Lanche", "Sobremesa"]

  /** The meal type selected when the app opens. */
  const DefaultMealType: string := "Jantar"

  /** The app opens on one of its own options. */
  lemma DefaultMealTypeIsAnOption()
    ensures DefaultMealType in MealTypes
  {
    assert MealTypes[2] == DefaultMealType;
  }

  /** The two tabs of the page. */
  datatype View = Generator | FavouritesView

  /** What the App shows for a thrown value that is not an `Error`. */
  const UnknownErrorMessage: string := "Ocorreu um erro desconhecido."

  /** The text `handleSubmit` stores in `error` for a rejected generation. */
  function DisplayedError(t: Thrown): string {
    match t
    case ErrorObject(msg) => msg
    case OtherValue => UnknownErrorMessage
  }

  /**
   * Every failure of the generator reaches the screen as one of the service's
   * two messages: the App's own fallback for non-`Error` values is never shown.
   */
  lemma GeneratorFailuresShownAsWrapped(response: Result<string, Thrown>, parse: string -> Result<Parsed, Thrown>)
    ensures var r := GenerateRecipe(response, parse);
      r.Err? ==>
        var m := DisplayedError(r.error);
        && m != UnknownErrorMessage
        && (FailurePrefix <= m || m == UnknownFailure)
  {
    var r := GenerateRecipe(response, parse);
    if r.Err? {
      assert |UnknownErrorMessage| < |FailurePrefix|;
      assert |UnknownErrorMessage| != |UnknownFailure|;
    }
  }

  /** The arguments `handleSubmit` hands to `generateRecipe`. */
  datatype GenerateArgs = GenerateArgs(ingredients: string, mealType: string, dietaryRestrictions: seq<string>)

  class RecipeApp {
    var ingredients: seq<Ingredient>
    var mealType: string
    var dietaryRestrictions: seq<string>
    var recipe: Option<Recipe>
    var isLoading: bool
    var error: Option<string>
    var savedRecipes: seq<Recipe>
    var view: View
    /** The list last written to storage under `savedRecipes`. */
    ghost var persisted: seq<Recipe>

    /** Favourites have unique names, and storage holds exactly the in-memory list. */
    ghost predicate Valid()
      reads this
    {
      UniqueNames(savedRecipes) && persisted == savedRecipes
    }

    /** The selected restrictions are distinct labels of the toggle buttons. */
    predicate RestrictionsWellFormed()
      reads this`dietaryRestrictions
    {
      NoDuplicates(dietaryRestrictions) && forall l :: l in dietaryRestrictions ==> l in DietaryOptions
    }

    /** The form always shows a row, and row ids are distinct. */
    predicate RowsWellFormed()
      reads this`ingredients
    {
      |ingredients| >= 1 && DistinctIds(ingredients)
    }

    /**
     * The state after the first render and the storage effect: one blank row
     * stamped `firstRowId`, and the favourites read back from storage
     * (`stored`, the empty list when nothing was stored).
     */
    constructor(firstRowId: int, stored: seq<Recipe>)
      requires UniqueNames(stored)
      ensures Valid() && RowsWellFormed() && RestrictionsWellFormed()
      ensures ingredients == [BlankRow(firstRowId)]
      ensures mealType == DefaultMealType && dietaryRestrictions == []
      ensures recipe.None? && !isLoading && error.None?
      ensures savedRecipes == stored && view == Generator
    {
      ingredients := [BlankRow(firstRowId)];
      mealType := DefaultMealType;
      dietaryRestrictions := [];
      recipe := None;
      isLoading := false;
      error := None;
      savedRecipes := stored;
      view := Generator;
      persisted := stored;
    }

    /** `handleSaveRecipe`: the recipe is appended and stored unless its name is already saved. */
    method SaveRecipe(r: Recipe)
      requires Valid()
      modifies this`savedRecipes, this`persisted
      ensures Valid()
      ensures savedRecipes == Save(old(savedRecipes), r)
      ensures old(IsSaved(savedRecipes, Some(r))) ==> savedRecipes == old(savedRecipes)
      ensures !old(IsSaved(savedRecipes, Some(r))) ==> savedRecipes == old(savedRecipes) + [r]
      ensures IsSaved(savedRecipes, Some(r))
    {
      if IsSaved(savedRecipes, Some(r)) {
        return;
      }
      SaveNewAppends(savedRecipes, r);
      savedRecipes := Save(savedRecipes, r);
      persisted := savedRecipes;
    }

    /** `handleRemoveRecipe`: every recipe with that name is dropped, and the rest stored. */
    method RemoveRecipe(name: string)
      requires Valid()
      modifies this`savedRecipes, this`persisted
      ensures Valid()
      ensures savedRecipes == RemoveNamed(old(savedRecipes), name)
      ensures !HasName(savedRecipes, name)
      ensures !old(HasName(savedRecipes, name)) ==> savedRecipes == old(savedRecipes)
    {
      RemovePreservesUnique(savedRecipes, name);
      if !HasName(savedRecipes, name) {
        RemoveAbsentIsNoOp(savedRecipes, name);
      }
      savedRecipes := RemoveNamed(savedRecipes, name);
      persisted := savedRecipes;
    }

    /** `handleViewSavedRecipe`: the favourite becomes the displayed recipe, on the generator tab. */
    method ViewSavedRecipe(r: Recipe)
      modifies this`recipe, this`view
      ensures recipe == Some(r) && view == Generator
    {
      recipe := Some(r);
      view := Generator;
    }

    /** The navigation buttons. */
    method SetView(v: View)
      modifies this`view
      ensures view == v
    {
      view := v;
    }

    /** The meal-type select. */
    method SetMealType(m: string)
      modifies this`mealType
      ensures mealType == m
    {
      mealType := m;
    }

    /** `handleDietaryChange`. */
    method ToggleDietary(option: string)
      modifies this`dietaryRestrictions
      ensures dietaryRestrictions == ToggleRestriction(old(dietaryRestrictions), option)
      ensures option in dietaryRestrictions <==> option !in old(dietaryRestrictions)
      ensures NoDuplicates(old(dietaryRestrictions)) ==> NoDuplicates(dietaryRestrictions)
      ensures old(RestrictionsWellFormed()) && option in DietaryOptions ==> RestrictionsWellFormed()
    {
      if NoDuplicates(dietaryRestrictions) {
        ToggleKeepsNoDuplicates(dietaryRestrictions, option);
      }
      dietaryRestrictions := ToggleRestriction(dietaryRestrictions, option);
    }

    /** `handleIngredientChange`. */
    method ChangeIngredientField(id: int, field: Field, value: string)
      modifies this`ingredients
      ensures ingredients == ChangeIngredient(old(ingredients), id, field, value)
      ensures old(RowsWellFormed()) ==> RowsWellFormed()
    {
      if DistinctIds(ingredients) {
        ChangeKeepsIds(ingredients, id, field, value);
      }
      ingredients := ChangeIngredient(ingredients, id, field, value);
    }

    /** `handleAddIngredient`, with the new row's timestamp as `id`. */
    method AddIngredientRow(id: int)
      modifies this`ingredients
      ensures ingredients == AddIngredient(old(ingredients), id)
      ensures old(RowsWellFormed()) && !old(HasId(ingredients, id)) ==> RowsWellFormed()
    {
      ingredients := AddIngredient(ingredients, id);
    }

    /** `handleRemoveIngredient`: nothing happens while a single row is left. */
    method RemoveIngredientRow(id: int)
      modifies this`ingredients
      ensures ingredients == RemoveIngredient(old(ingredients), id)
      ensures |old(ingredients)| <= 1 ==> ingredients == old(ingredients)
      ensures old(RowsWellFormed()) ==> RowsWellFormed()
    {
      if RowsWellFormed() {
        RemoveIngredientKeepsARow(ingredients, id);
      }
      ingredients := RemoveIngredient(ingredients, id);
    }

    /**
     * `handleSubmit` up to the `await`. With no named row the request is
     * refused locally: the message is set and nothing else changes. Otherwise
     * the loading state starts, `error` and `recipe` are cleared, and the
     * arguments of the generator call are returned.
     */
    method Submit() returns (call: Option<GenerateArgs>)
      modifies this`isLoading, this`error, this`recipe
      ensures ValidIngredients(ingredients) == [] ==>
        && call.None?
        && error == Some(NoIngredientsMessage)
        && isLoading == old(isLoading) && recipe == old(recipe)
      ensures ValidIngredients(ingredients) != [] ==>
        && call == Some(GenerateArgs(IngredientsString(ingredients), mealType, dietaryRestrictions))
        && call.value.ingredients != ""
        && isLoading && error.None? && recipe.None?
    {
      var valid := ValidIngredients(ingredients);
      if |valid| == 0 {
        error := Some(NoIngredientsMessage);
        return None;
      }
      isLoading := true;
      error := None;
      recipe := None;
      IngredientsStringEmptyIff(ingredients);
      call := Some(GenerateArgs(IngredientsString(ingredients), mealType, dietaryRestrictions));
    }

    /**
     * `handleSubmit` after the `await`: the parsed value or the error text is
     * set, then loading ends. Started from a cleared state, exactly one of the
     * two is set afterwards, except when the response was the JSON `null`,
     * which `setRecipe` stores as no recipe while `error` stays cleared.
     */
    method Complete(outcome: Result<Parsed, Thrown>)
      modifies this`recipe, this`error, this`isLoading
      ensures !isLoading
      ensures outcome.Ok? ==> recipe == outcome.value && error == old(error)
      ensures outcome.Err? ==> error == Some(DisplayedError(outcome.error)) && recipe == old(recipe)
      ensures old(recipe.None? && error.None?) && outcome != Ok(None) ==> (recipe.Some? <==> error.None?)
      ensures old(recipe.None? && error.None?) && outcome == Ok(None) ==> recipe.None? && error.None?
    {
      match outcome {
        case Ok(v) => recipe := v;
        case Err(t) => error := Some(DisplayedError(t));
      }
      isLoading := false;
    }

    /**
     * The whole of `handleSubmit` against the service: `respond` stands for the
     * model call and `parse` for `JSON.parse`. A valid submission ends not
     * loading, with the generator's recipe or one of the service's two
     * messages: exactly one of them, unless the response was the JSON `null`,
     * which leaves both unset.
     */
    method HandleSubmit(respond: ContentRequest -> Result<string, Thrown>, parse: string -> Result<Parsed, Thrown>)
      modifies this`isLoading, this`error, this`recipe
      ensures ValidIngredients(ingredients) == [] ==>
        error == Some(NoIngredientsMessage) && isLoading == old(isLoading) && recipe == old(recipe)
      ensures ValidIngredients(ingredients) != [] ==>
        var request := BuildRequest(IngredientsString(ingredients), mealType, dietaryRestrictions);
        var outcome := GenerateRecipe(respond(request), parse);
        && !isLoading
        && recipe == (if outcome.Ok? then outcome.value else None)
        && (outcome != Ok(None) ==> (recipe.Some? <==> error.None?))
        && (outcome == Ok(None) ==> recipe.None? && error.None?)
        && (outcome.Err? ==> error == Some(DisplayedError(outcome.error)))
        && (error.Some? ==> FailurePrefix <= error.value || error.value == UnknownFailure)
    {
      var call := Submit();
      if call.Some? {
        var args := call.value;
        var request := BuildRequest(args.ingredients, args.mealType, args.dietaryRestrictions);
        var response := respond(request);
        GeneratorFailuresShownAsWrapped(response, parse);
        Complete(GenerateRecipe(response, parse));
      }
    }

    /**
     * The form is disabled while loading, but the tabs and the favourites'
     * view buttons are not, so a favourite can be opened during the `await`.
     * If the call then fails, its error is set while that favourite stays
     * displayed: both the recipe and the error are shown.
     */
    method ViewWhileLoading(f: Recipe, failure: Thrown)
      requires ValidIngredients(ingredients) != []
      modifies this`isLoading, this`error, this`recipe, this`view
      ensures !isLoading && view == Generator
      ensures recipe == Some(f) && error == Some(DisplayedError(failure))
    {
      var call := Submit();
      SetView(FavouritesView);
      ViewSavedRecipe(f);
      Complete(Err(failure));
    }
  }
}
