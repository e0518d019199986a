/**
 * The recipe-generation service: the restriction sentence and the prompt it
 * sends, the response schema it asks the model to follow, the trimming of the
 * response text, and the mapping of every failure to a user-facing error.
 * The call to the model and `JSON.parse` are parameters of `GenerateRecipe`.
 */
module GeminiService {
  import opened Text
  import opened RecipeTypes

  /** The sentence that introduces the selected restrictions. */
  const RestrictionsLead: string :=
    "A receita deve seguir "
    + "as seguintes restrições "
    + "alimentares: "

  /** The sentence used when no restriction is selected. */
  const NoRestrictions: string := "Não há restrições alimentares."

  /** The restriction sentence of the prompt. */
  function DietaryInfo(labels: seq<string>): string {
    if |labels| > 0 then RestrictionsLead + Join(labels, ", ") + "." else NoRestrictions
  }

  /** The sentence tells whether restrictions were selected: it is the fixed one exactly when none were. */
  lemma DietaryInfoEmptyIff(labels: seq<string>)
    ensures DietaryInfo(labels) == NoRestrictions <==> |labels| == 0
  {
    if |labels| > 0 {
      assert |DietaryInfo(labels)| > |RestrictionsLead| > |NoRestrictions|;
    }
  }

  /** With restrictions, the labels can be read back, joined by ", " in input order, between the lead and the final period. */
  lemma DietaryInfoLabels(labels: seq<string>)
    requires |labels| > 0
    ensures RestrictionsLead <= DietaryInfo(labels)
    ensures DietaryInfo(labels)[|DietaryInfo(labels)| - 1] == '.'
    ensures DietaryInfo(labels)[|RestrictionsLead|..|DietaryInfo(labels)| - 1] == Join(labels, ", ")
  {
    var j := Join(labels, ", ");
    assert DietaryInfo(labels) == RestrictionsLead + j + ".";
    assert (RestrictionsLead + j + ".")[|RestrictionsLead|..|RestrictionsLead| + |j|] == j;
  }

  // The literal texts of the prompt template, cut where the three values are
  // inserted. The template's lines keep their eight-space indentation; each
  // line is written as a few short literals, which keeps proofs about the
  // prompt cheap.
  const PromptIntro: string :=
    "\n"
    + "        Você é um chef "
    + "especialista que cria "
    + "receitas deliciosas e "
    + "fáceis de seguir.\n"
    + "        Gere uma única "
    + "receita completa para "
    + "uma refeição do tipo "
  const PromptAfterMealType: string :=
    ".\n"
    + "        Os ingredientes "
    + "principais disponíveis são: "
  const PromptAfterIngredients: string :=
    ".\n"
    + "        Você pode incluir "
    + "ingredientes básicos "
    + "comuns como óleo, sal, "
    + "pimenta e água, "
    + "se necessário.\n"
    + "        "
  const PromptClosing: string :=
    "\n"
    + "        A receita deve ser "
    + "criativa e atraente.\n"
    + "        Forneça também "
    + "informações nutricionais "
    + "estimadas por porção, "
    + "incluindo calorias, "
    + "proteínas, carboidratos "
    + "e gorduras.\n"
    + "        Retorne a receita "
    + "no formato JSON "
    + "especificado.\n"
    + "    "

  /** The template's texts around the meal type (in double quotes), the ingredients and the restriction sentence. */
  const PromptTexts: seq<string> :=
    [PromptIntro + "\"", "\"" + PromptAfterMealType, PromptAfterIngredients, PromptClosing]

  /** The prompt: the template filled with the meal type, the ingredients string and the restriction sentence. */
  function Prompt(ingredients: string, mealType: string, labels: seq<string>): string {
    Interpolate(PromptTexts, [mealType, ingredients, DietaryInfo(labels)])
  }

  /** A template of three slots, as the sum of its parts. */
  lemma ThreeSlots(t0: string, t1: string, t2: string, t3: string, v0: string, v1: string, v2: string)
    ensures Interpolate([t0, t1, t2, t3], [v0, v1, v2]) == t0 + v0 + (t1 + v1 + (t2 + v2 + t3))
  {
    assert [t2, t3][1..] == [t3] && [v2][1..] == [];
    assert Interpolate([t2, t3], [v2]) == t2 + v2 + t3;
    assert [t1, t2, t3][1..] == [t2, t3] && [v1, v2][1..] == [v2];
    assert Interpolate([t1, t2, t3], [v1, v2]) == t1 + v1 + (t2 + v2 + t3);
    assert [t0, t1, t2, t3][1..] == [t1, t2, t3] && [v0, v1, v2][1..] == [v1, v2];
  }

  /** In a filled three-slot template, the first value sits right after the first text, and the second text follows it. */
  lemma FirstSlot(t0: string, t1: string, t2: string, t3: string, v0: string, v1: string, v2: string)
    requires |t0| > 0 && |t1| > 0
    ensures var p := Interpolate([t0, t1, t2, t3], [v0, v1, v2]);
      var m := |t0|;
      && m + |v0| < |p|
      && p[m - 1] == t0[m - 1] && p[m..m + |v0|] == v0 && p[m + |v0|] == t1[0]
  {
    ThreeSlots(t0, t1, t2, t3, v0, v1, v2);
    var rest := t1 + v1 + (t2 + v2 + t3);
    var p := t0 + v0 + rest;
    SliceAfter(t0, v0 + rest, 0, |v0|);
    assert p == t0 + (v0 + rest);
    assert p[|t0| + |v0|] == rest[0];
  }

  /** In a filled three-slot template, the second value sits after the first value and the second text. */
  lemma SecondSlot(t0: string, t1: string, t2: string, t3: string, v0: string, v1: string, v2: string)
    ensures var p := Interpolate([t0, t1, t2, t3], [v0, v1, v2]);
      var i := |t0| + |v0| + |t1|;
      && i + |v1| <= |p|
      && p[i..i + |v1|] == v1
  {
    ThreeSlots(t0, t1, t2, t3, v0, v1, v2);
    var p := t0 + v0 + t1 + (v1 + (t2 + v2 + t3));
    assert p == t0 + v0 + (t1 + v1 + (t2 + v2 + t3));
    SliceAfter(t0 + v0 + t1, v1 + (t2 + v2 + t3), 0, |v1|);
  }

  /** In a filled three-slot template, the third value sits just before the last text. */
  lemma ThirdSlot(t0: string, t1: string, t2: string, t3: string, v0: string, v1: string, v2: string)
    ensures var p := Interpolate([t0, t1, t2, t3], [v0, v1, v2]);
      var d := |t0| + |v0| + |t1| + |v1| + |t2|;
      && d + |v2| + |t3| == |p|
      && p[d..d + |v2|] == v2
  {
    ThreeSlots(t0, t1, t2, t3, v0, v1, v2);
    var p := t0 + v0 + t1 + v1 + t2 + (v2 + t3);
    assert p == t0 + v0 + (t1 + v1 + (t2 + v2 + t3));
    SliceAfter(t0 + v0 + t1 + v1 + t2, v2 + t3, 0, |v2|);
  }

  /** Where the meal type starts in the prompt, right after the opening double quote. */
  function MealTypeStart(): nat {
    |PromptIntro| + 1
  }

  /** Where the ingredients string starts in the prompt. */
  function IngredientsStart(mealType: string): nat {
    MealTypeStart() + |mealType| + 1 + |PromptAfterMealType|
  }

  /** Where the restriction sentence starts in the prompt. */
  function DietaryInfoStart(ingredients: string, mealType: string): nat {
    IngredientsStart(mealType) + |ingredients| + |PromptAfterIngredients|
  }

  /** The lengths of the template's literal texts, in code points. */
  lemma PromptTextLengths()
    ensures |PromptIntro| == 152 && |PromptAfterMealType| == 54
    ensures |PromptAfterIngredients| == 111 && |PromptClosing| == 235
  {
  }

  /** The prompt's length: the three values plus the fixed text. */
  lemma PromptLength(ingredients: string, mealType: string, labels: seq<string>)
    ensures |Prompt(ingredients, mealType, labels)|
      == DietaryInfoStart(ingredients, mealType) + |DietaryInfo(labels)| + |PromptClosing|
  {
    ThirdSlot(PromptIntro + "\"", "\"" + PromptAfterMealType, PromptAfterIngredients, PromptClosing,
      mealType, ingredients, DietaryInfo(labels));
  }

  /** The meal type appears verbatim between double quotes. */
  lemma PromptQuotesMealType(ingredients: string, mealType: string, labels: seq<string>)
    ensures var p := Prompt(ingredients, mealType, labels);
      var m := MealTypeStart();
      && m + |mealType| < |p|
      && p[m - 1] == '"' && p[m..m + |mealType|] == mealType && p[m + |mealType|] == '"'
  {
    var p := Prompt(ingredients, mealType, labels);
    var m := MealTypeStart();
    PromptTextLengths();
    FirstSlot(PromptIntro + "\"", "\"" + PromptAfterMealType, PromptAfterIngredients, PromptClosing,
      mealType, ingredients, DietaryInfo(labels));
    var open := PromptIntro + "\"";
    var close := "\"" + PromptAfterMealType;
    assert p[m - 1] == open[m - 1] == '"';
    assert p[m + |mealType|] == close[0] == '"';
  }

  /** The ingredients string appears verbatim after the meal type. */
  lemma PromptCarriesIngredients(ingredients: string, mealType: string, labels: seq<string>)
    ensures var p := Prompt(ingredients, mealType, labels);
      var i := IngredientsStart(mealType);
      && MealTypeStart() + |mealType| < i
      && i + |ingredients| <= |p|
      && p[i..i + |ingredients|] == ingredients
  {
    SecondSlot(PromptIntro + "\"", "\"" + PromptAfterMealType, PromptAfterIngredients, PromptClosing,
      mealType, ingredients, DietaryInfo(labels));
  }

  /** The restriction sentence appears verbatim after the ingredients string. */
  lemma PromptCarriesDietaryInfo(ingredients: string, mealType: string, labels: seq<string>)
    ensures var p := Prompt(ingredients, mealType, labels);
      var d := DietaryInfoStart(ingredients, mealType);
      && d + |DietaryInfo(labels)| <= |p|
      && p[d..d + |DietaryInfo(labels)|] == DietaryInfo(labels)
  {
    ThirdSlot(PromptIntro + "\"", "\"" + PromptAfterMealType, PromptAfterIngredients, PromptClosing,
      mealType, ingredients, DietaryInfo(labels));
  }

  /** A node of the response schema: a string, an array of items, or an object with properties. */
  datatype Schema =
    | StringSchema(description: Option<string>)
    | ArraySchema(arrayDescription: string, items: Schema)
    | ObjectSchema(objectDescription: Option<string>, properties: seq<Property>, required: seq<string>)

  datatype Property = Property(name: string, schema: Schema)

  const NutritionSchema: Schema := ObjectSchema(
    Some("Informações nutricionais estimadas por porção."),
    [ Property("calories", StringSchema(Some("Calorias estimadas, ex: '350 kcal'."))),
      Property("protein", StringSchema(Some("Proteína estimada, ex: '15g'."))),
      Property("carbs", StringSchema(Some("Carboidratos estimados, ex: '40g'."))),
      Property("fat", StringSchema(Some("Gordura estimada, ex: '12g'."))) ],
    ["calories", "protein", "carbs", "fat"])

  /** The schema sent with every request. */
  const RecipeSchema: Schema := ObjectSchema(
    None,
    [ Property("recipeName", StringSchema(Some("O nome da receita."))),
      Property("description", StringSchema(Some("Uma breve e atraente descrição do prato."))),
      Property("servings", StringSchema(Some("Para quantas pessoas esta receita serve."))),
      Property("prepTime", StringSchema(Some("O tempo de preparação, ex: '15 minutos'."))),
      Property("cookTime", StringSchema(Some("O tempo de cozimento, ex: '30 minutos'."))),
      Property("ingredients", ArraySchema("Uma lista de todos os ingredientes com as quantidades.", StringSchema(None))),
      Property("instructions", ArraySchema("Instruções de cozimento passo a passo.", StringSchema(None))),
      Property("nutrition", NutritionSchema) ],
    ["recipeName", "description", "servings", "prepTime", "cookTime", "ingredients", "instructions", "nutrition"])

  function PropertyNames(props: seq<Property>): (r: seq<string>)
    ensures |r| == |props|
    ensures forall i :: 0 <= i < |props| ==> r[i] == props[i].name
  {
    if props == [] then [] else [props[0].name] + PropertyNames(props[1..])
  }

  /** The JSON type a schema node asks for. */
  datatype Kind = StringKind | StringArrayKind | OtherArrayKind | ObjectKind

  function KindOf(s: Schema): Kind {
    match s
    case StringSchema(_) => StringKind
    case ArraySchema(_, items) => if items.StringSchema? then StringArrayKind else OtherArrayKind
    case ObjectSchema(_, _, _) => ObjectKind
  }

  function Kinds(props: seq<Property>): (r: seq<Kind>)
    ensures |r| == |props|
    ensures forall i :: 0 <= i < |props| ==> r[i] == KindOf(props[i].schema)
  {
    if props == [] then [] else [KindOf(props[0].schema)] + Kinds(props[1..])
  }

  /** Every member of `Recipe` is a required property of the schema, in declaration order. */
  lemma RecipeSchemaNames()
    ensures RecipeSchema.required == RecipeFields
    ensures PropertyNames(RecipeSchema.properties) == RecipeFields
  {
    var names := PropertyNames(RecipeSchema.properties);
    assert |names| == |RecipeFields|;
    forall i | 0 <= i < |names| ensures names[i] == RecipeFields[i] {
      assert names[i] == RecipeSchema.properties[i].name;
    }
  }

  /**
   * `ingredients` and `instructions` are arrays of strings, `nutrition` is the
   * nutrition object, and every other member is a string.
   */
  lemma RecipeSchemaKinds()
    ensures Kinds(RecipeSchema.properties) ==
      [StringKind, StringKind, StringKind, StringKind, StringKind, StringArrayKind, StringArrayKind, ObjectKind]
    ensures RecipeSchema.properties[7].schema == NutritionSchema
  {
  }

  /** Every member of `Nutrition` is a required string property, in declaration order. */
  lemma NutritionSchemaMirrorsType()
    ensures NutritionSchema.required == NutritionFields
    ensures PropertyNames(NutritionSchema.properties) == NutritionFields
    ensures Kinds(NutritionSchema.properties) == [StringKind, StringKind, StringKind, StringKind]
  {
  }

  /** The prefix of every message for an `Error` thrown while generating. */
  const FailurePrefix: string := "Falha ao gerar a receita da API Gemini: "

  /** The message for any other thrown value. */
  const UnknownFailure: string := "Ocorreu um erro desconhecido ao gerar a receita."

  /** The message of the `Error` the catch block throws. */
  function FailureMessage(t: Thrown): (m: string)
    ensures FailurePrefix <= m || m == UnknownFailure
  {
    match t
    case ErrorObject(msg) => FailurePrefix + msg
    case OtherValue => UnknownFailure
  }

  /** The original message inside a failure message, if it wraps one. */
  function WrappedMessage(m: string): Option<string> {
    if FailurePrefix <= m then Some(m[|FailurePrefix|..]) else None
  }

  /** The two kinds of failure stay apart, and an `Error`'s own message is kept verbatim. */
  lemma FailureMessageRoundTrip(t: Thrown)
    ensures WrappedMessage(FailureMessage(t)) == if t.ErrorObject? then Some(t.message) else None
  {
    if t.OtherValue? {
      assert !(FailurePrefix <= UnknownFailure) by {
        assert FailurePrefix[|FailurePrefix| - 2] == ':';
        assert UnknownFailure[|FailurePrefix| - 2] == 'a';
      }
    }
  }

  /** The arguments of the model call. */
  datatype ContentRequest = ContentRequest(model: string, contents: string, responseMimeType: string, responseSchema: Schema)

  /** The request `generateRecipe` sends. */
  function BuildRequest(ingredients: string, mealType: string, labels: seq<string>): ContentRequest {
    ContentRequest("gemini-2.5-flash", Prompt(ingredients, mealType, labels), "application/json", RecipeSchema)
  }

  /**
   * What `JSON.parse` of the response text gives after the unchecked cast
   * `as Recipe`: a recipe, or `None` when the text is the JSON literal `null`,
   * which parses without throwing.
   */
  type Parsed = Option<Recipe>

  /**
   * `generateRecipe` after its request: `response` is the settled model call
   * with its `text`, `parse` stands for `JSON.parse` and the cast. The parser
   * is handed the trimmed text; every failure leaves as an `Error` whose
   * message is one of the two user-facing forms.
   */
  function GenerateRecipe(response: Result<string, Thrown>, parse: string -> Result<Parsed, Thrown>): (r: Result<Parsed, Thrown>)
    ensures r.Err? ==> r.error.ErrorObject? && (FailurePrefix <= r.error.message || r.error.message == UnknownFailure)
  {
    match response
    case Err(t) => Err(ErrorObject(FailureMessage(t)))
    case Ok(text) =>
      match parse(Trim(text))
      case Ok(recipe) => Ok(recipe)
      case Err(t) => Err(ErrorObject(FailureMessage(t)))
  }

  /**
   * The generator succeeds exactly when the call succeeds and its trimmed text
   * parses, and then returns what the parser returned. A failure of the call
   * or of the parser reaches the caller with the original `Error` message
   * after the prefix, or with the unknown-failure message for any other value.
   */
  lemma GenerateRecipeOutcome(response: Result<string, Thrown>, parse: string -> Result<Parsed, Thrown>)
    ensures var r := GenerateRecipe(response, parse);
      && (r.Ok? <==> response.Ok? && parse(Trim(response.value)).Ok?)
      && (r.Ok? ==> r.value == parse(Trim(response.value)).value)
    ensures response.Err? ==>
      WrappedMessage(GenerateRecipe(response, parse).error.message)
        == if response.error.ErrorObject? then Some(response.error.message) else None
    ensures response.Ok? && parse(Trim(response.value)).Err? ==>
      var t := parse(Trim(response.value)).error;
      WrappedMessage(GenerateRecipe(response, parse).error.message)
        == if t.ErrorObject? then Some(t.message) else None
  {
    match response
    case Err(t) => FailureMessageRoundTrip(t);
    case Ok(text) =>
      match parse(Trim(text))
      case Ok(_) =>
      case Err(t) => FailureMessageRoundTrip(t);
  }

  /** Whitespace around the response text never changes the outcome. */
  lemma GenerateIgnoresPadding(w1: string, text: string, w2: string, parse: string -> Result<Parsed, Thrown>)
    requires IsBlank(w1) && IsBlank(w2)
    ensures GenerateRecipe(Ok(w1 + text + w2), parse) == GenerateRecipe(Ok(text), parse)
  {
    TrimIgnoresPadding(w1, text, w2);
  }
}
