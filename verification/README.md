# Recipe generator: favourites, form, submission and prompt

A model of the logic of a small React recipe generator. The user lists the
ingredients they have, picks a meal type and dietary restrictions, and asks a
language model (Gemini) for a recipe. The recipe comes back as JSON following a
fixed schema. It can be saved to a favourites list kept in browser storage, and
shared as plain text.

The model has seven modules:

- `Text` covers the JavaScript string operations the app uses:
  - `trim`, over the ECMAScript WhiteSpace and LineTerminator characters;
  - `join`;
  - decimal rendering of step numbers;
  - template literals, as `Interpolate`.

  It also defines `Split`, which the app never calls. `Split` is a reference
  definition, used to prove that joined lines can be read back.
- `RecipeTypes` holds the `Recipe` and `Nutrition` records and the values a
  `catch` block can receive.
- `Favourites` holds the favourites list operations: membership by name, save
  unless present, and filter by name.
- `FormEdits` holds the new form values the form handlers compute: the
  restriction toggle, and the edit, add and remove operations on ingredient rows.
- `Submission` holds the values `handleSubmit` and `handleShare` compute:
  - the rows that count;
  - the ingredients string;
  - the share text.
- `GeminiService` models `generateRecipe`:
  - the restriction sentence;
  - the prompt template;
  - the response schema;
  - the request;
  - the trimming of the response;
  - the mapping of every failure to one of two messages.
- `AppState` is the `App` component: a class `RecipeApp` whose fields are the
  component's state slots, and whose methods are its handlers.
  - `handleSubmit` is split at its `await` into `Submit` and `Complete`, which
    `HandleSubmit` composes with the service.
  - In `HandleSubmit`, the model call is the parameter `respond` and
    `JSON.parse` is the parameter `parse`.

The class keeps three invariants:

- `Valid`: favourite names are unique, and the ghost `persisted` list (what
  storage holds) equals the in-memory list after every favourites change.
- `RowsWellFormed`: the form always has a row, and row ids are distinct.
- `RestrictionsWellFormed`: the selected restrictions are distinct labels of
  the toggle buttons (`DietaryOptions`). Toggling a button's label keeps this.

Two facts about the service shape the model:

- `nutrition` is a required member of `Recipe` (types.ts:17) and a required
  property of the schema.
- The service only trims the response text, parses it and casts the result to
  `Recipe` without checking it. It does not strip code fences, validate the
  structure or classify provider errors.
  - A response whose text is the JSON `null` parses without an error.
  - `generateRecipe` then returns `null`, and the App stores it as no recipe.
  - The model keeps that case: the parsed value is `Parsed`, an
    `Option<Recipe>` in which `None` is `null`.

## Model

| member | source | states |
|---|---|---|
| Text.Trim | services/geminiService.ts:93 | `trim` leaves a string with no whitespace at either end |
| Text.TrimEmptyIffBlank | App.tsx:307 | `name.trim() !== ''` fails exactly for names made only of whitespace |
| Text.TrimOfTrimmed | App.tsx:318 | `trim` returns a string without outer whitespace unchanged |
| Text.TrimIdempotent | services/geminiService.ts:93 | trimming twice gives the same text as trimming once |
| Text.TrimIgnoresPadding | services/geminiService.ts:93 | whitespace added at either end of a string never changes its trimmed form |
| Text.TrimConcatEnd | App.tsx:318 | when `b` is not blank, the trimmed `a + b` ends with the trimmed `b` |
| Text.TrimKeepsPrefix | App.tsx:52-66 | when neither part is blank, the trimmed `a + b` starts with `a` without its leading whitespace |
| Text.Join | App.tsx:319 | the first part opens the joined string |
| Text.JoinSnoc | App.tsx:319 | joining one more part appends the separator and that part |
| Text.JoinEmptyIff | App.tsx:319 | with a non-empty separator, a join is empty exactly when there is no part or a single empty part |
| Text.JoinTrimStart | App.tsx:52-66 | with a blank first part and a blank separator, the trimmed join starts with the second part when that part opens with a non-whitespace character and a later part is not blank |
| Text.Interpolate | services/geminiService.ts:72-81 | definition: the texts and the values laid end to end, as a template literal does; `InterpolateSlot` states where each value lands |
| Text.JoinTrimEnd | App.tsx:52-66 | with a blank last part and a blank separator, the trimmed join ends with the trimmed part before it |
| Text.InterpolateSlot | services/geminiService.ts:72-81 | in a filled template, every value appears verbatim at the offset given by the texts and values before it |
| Text.SplitJoin | App.tsx:49 | the ingredient lines joined with a line break can be read back: splitting a join of parts without the separator character gives the parts back (`Split` is a reference definition; the app never splits) |
| Text.NatToString | App.tsx:50 | the rendering of `${i + 1}` is a non-empty string of decimal digits, without a leading zero unless the number is 0 |
| Text.NatToStringRoundTrip | App.tsx:50 | the decimal rendering of a step number reads back as the same number |
| Favourites.HasName | App.tsx:260 | `some` by name holds exactly when a list entry has that name |
| Favourites.IsSaved | App.tsx:258-261 | no recipe is never saved; a recipe is saved exactly when an entry has its name |
| Favourites.Save | App.tsx:263-266 | saving keeps the old entries in order, appends only when the name is new, leaves the name present and keeps names unique |
| Favourites.RemoveNamed | App.tsx:271 | removal drops every entry with the name, keeps every other entry, and never grows the list |
| Favourites.SaveExistingIsNoOp | App.tsx:264 | saving a recipe whose name is already present leaves the list unchanged |
| Favourites.SaveNewAppends | App.tsx:265 | saving a recipe with a new name appends exactly it at the end |
| Favourites.RemoveNamedConcat | App.tsx:271 | removal distributes over concatenation, so the survivors keep their order |
| Favourites.RemoveAbsentIsNoOp | App.tsx:271 | removing an absent name leaves the list unchanged |
| Favourites.RemovePreservesUnique | App.tsx:271 | removal keeps names unique |
| Favourites.RemoveUndoesSave | App.tsx:263-272 | removing the name of a recipe just saved under a new name restores the list |
| FormEdits.RemoveAll | App.tsx:285 | the filtered label list lacks the label and keeps the membership of every other label |
| FormEdits.ToggleRestriction | App.tsx:282-288 | the toggle flips membership of the one label, keeps every other label's membership, and appends an absent label at the end |
| FormEdits.RemoveAllConcat | App.tsx:285 | the label filter distributes over concatenation, so the remaining labels keep their order |
| FormEdits.RemoveAllKeepsNoDuplicates | App.tsx:285 | filtering a label list without duplicates leaves no duplicates |
| FormEdits.ToggleKeepsNoDuplicates | App.tsx:282-288 | the toggle never introduces a duplicate label |
| FormEdits.RemoveAllAbsent | App.tsx:285 | filtering out an absent label leaves the list unchanged |
| FormEdits.ToggleTwiceRestores | App.tsx:282-288 | selecting an unselected label and then deselecting it restores the list |
| FormEdits.RemoveAllSnoc | App.tsx:285 | filtering out a label that was just appended gives the same list as filtering the list before it |
| FormEdits.WithField | App.tsx:291 | the spread update sets the one field and keeps the id and the other fields |
| FormEdits.ChangeIngredient | App.tsx:290-292 | rows whose id matches get the new value in that field only; length, order, ids and all other rows are unchanged |
| FormEdits.AddIngredient | App.tsx:294-296 | one blank row is appended with the given id; a fresh id keeps ids distinct |
| FormEdits.RemoveId | App.tsx:300 | the filter keeps exactly the rows with another id, and never grows the list |
| FormEdits.RemoveIdConcat | App.tsx:300 | the row filter distributes over concatenation, so the remaining rows keep their order |
| FormEdits.RemoveIngredient | App.tsx:298-302 | with one row left nothing changes; otherwise the remaining rows are exactly the rows with another id |
| FormEdits.RemoveIdDropsAtMostOne | App.tsx:300 | with distinct ids the filter drops at most one row and keeps ids distinct |
| FormEdits.RemoveIdAbsent | App.tsx:300 | filtering out an absent id leaves the rows unchanged |
| FormEdits.RemoveIngredientKeepsARow | App.tsx:298-302 | with distinct ids, removing a row never empties the form |
| FormEdits.ChangeKeepsIds | App.tsx:290-292 | editing keeps row ids distinct |
| Submission.ValidIngredients | App.tsx:307 | the kept rows are exactly the rows whose name is not all whitespace |
| Submission.ValidIngredientsConcat | App.tsx:307 | the row filter distributes over concatenation, so kept rows stay in form order |
| Submission.Phrase | App.tsx:318 | the phrase of a row has no whitespace at either end |
| Submission.PhraseEndsWithName | App.tsx:318 | the phrase of a row with a name is not empty and ends with the trimmed name |
| Submission.PhraseOfFilledRow | App.tsx:318 | with all three parts filled and trimmed, the phrase is them joined by single spaces |
| Submission.PhraseWithoutUnit | App.tsx:318 | with no unit, two spaces stay between the quantity and the name |
| Submission.PhraseOfNameOnly | App.tsx:318 | with neither quantity nor unit, the phrase is the trimmed name |
| Submission.Phrases | App.tsx:317-318 | one phrase per row, in row order |
| Submission.IngredientsString | App.tsx:317-319 | definition: the phrases of the rows with a name, in row order, joined by ", "; `IngredientsStringEmptyIff` and `IngredientsStringSnoc` state its properties |
| Submission.IngredientsStringEmptyIff | App.tsx:307-319 | the ingredients string is empty exactly when no row has a name |
| Submission.IngredientsStringSnoc | App.tsx:317-319 | a new named row adds its phrase at the end, after ", " when earlier rows had names; an unnamed row adds nothing |
| Submission.Bullets | App.tsx:49 | each ingredient line is "- " followed by the ingredient, in order |
| Submission.NumberedFrom | App.tsx:50 | step `i` is the number `i + 1`, ". " and the step, in order |
| Submission.IngredientsText | App.tsx:49 | definition: the bulleted ingredient lines joined by line breaks; `IngredientLinesReadBack` reads them back |
| Submission.InstructionsText | App.tsx:50 | definition: the numbered steps joined by line breaks; `InstructionNumber` states each line's number and step |
| Submission.IngredientLinesReadBack | App.tsx:49 | ingredients without line breaks read back from the text as one bulleted line each |
| Submission.InstructionNumber | App.tsx:50 | line `i` opens with digits whose value is `i + 1`, then ". ", then the step verbatim |
| Submission.ShareLines | App.tsx:52-66 | definition: the template's fifteen lines, from the empty line after the opening backtick to the closing line's indentation; `ShareTextHeader` and `ShareTextFooter` state what survives the trim |
| Submission.ShareText | App.tsx:52-66 | the shared text has no whitespace at either end |
| Submission.ShareTextHeader | App.tsx:52-66 | the shared text opens with "Receita: " and the recipe's name |
| Submission.ShareTextFooter | App.tsx:52-66 | with at least one step, the shared text ends with the numbered steps |
| GeminiService.DietaryInfo | services/geminiService.ts:68-70 | definition: the lead, the labels joined by ", " and a period, or the fixed sentence; `DietaryInfoEmptyIff` and `DietaryInfoLabels` state its properties |
| GeminiService.DietaryInfoEmptyIff | services/geminiService.ts:68-70 | the sentence is "Não há restrições alimentares." exactly when no restriction is selected |
| GeminiService.DietaryInfoLabels | services/geminiService.ts:68-69 | with restrictions, the sentence is the fixed lead, the labels joined by ", " in input order, and a final period |
| GeminiService.PromptTexts | services/geminiService.ts:72-81 | definition: the template's four literal texts, cut where the meal type (inside its double quotes), the ingredients string and the restriction sentence are inserted |
| GeminiService.Prompt | services/geminiService.ts:72-81 | definition: the template filled with the meal type, the ingredients string and the restriction sentence, in that order; the four lemmas below state what it holds |
| GeminiService.PromptLength | services/geminiService.ts:72-81 | the prompt is the fixed text plus the three values, nothing else |
| GeminiService.PromptQuotesMealType | services/geminiService.ts:74 | the meal type appears verbatim between double quotes |
| GeminiService.PromptCarriesIngredients | services/geminiService.ts:75 | the ingredients string appears verbatim after the meal type |
| GeminiService.PromptCarriesDietaryInfo | services/geminiService.ts:77 | the restriction sentence appears verbatim after the ingredients string |
| GeminiService.RecipeSchema | services/geminiService.ts:10-60 | definition: the schema constant, with every description as in the source; `RecipeSchemaNames` and `RecipeSchemaKinds` state its shape |
| GeminiService.NutritionSchema | services/geminiService.ts:47-57 | definition: the nutrition object of the schema; `NutritionSchemaMirrorsType` states its shape |
| GeminiService.RecipeSchemaNames | services/geminiService.ts:59 | the schema's properties and its required list are the eight `Recipe` members, in declaration order |
| GeminiService.RecipeSchemaKinds | services/geminiService.ts:13-54 | `ingredients` and `instructions` are arrays of strings, `nutrition` is the nutrition object, and the other members are strings |
| GeminiService.NutritionSchemaMirrorsType | services/geminiService.ts:47-56 | the nutrition object requires exactly the four `Nutrition` members, each a string |
| GeminiService.FailureMessage | services/geminiService.ts:97-103 | every failure message either carries the Gemini failure prefix or is the unknown-failure message |
| GeminiService.FailureMessageRoundTrip | services/geminiService.ts:99-102 | an `Error`'s message is recovered verbatim after the prefix; any other thrown value gives no wrapped message |
| GeminiService.BuildRequest | services/geminiService.ts:84-91 | definition: the model name, the prompt, the JSON response type and the schema of the request |
| GeminiService.GenerateRecipe | services/geminiService.ts:83-103 | every failure leaves as an `Error` with one of the two messages |
| GeminiService.GenerateRecipeOutcome | services/geminiService.ts:93-102 | the generator succeeds exactly when the call succeeds and the trimmed text parses, and then returns the parsed value; a failed call or parse reaches the caller with its `Error` message after the prefix, or with the unknown-failure message |
| GeminiService.GenerateIgnoresPadding | services/geminiService.ts:93 | whitespace around the response text never changes the outcome |
| AppState.DefaultMealTypeIsAnOption | App.tsx:238 | the initial meal type is one of the select's options |
| AppState.DisplayedError | App.tsx:325 | definition: an `Error`'s message, or the App's fallback message for any other value; `GeneratorFailuresShownAsWrapped` shows the fallback never appears |
| AppState.GeneratorFailuresShownAsWrapped | App.tsx:324-325 | a generator failure is shown with one of the service's two messages, never the App's own fallback |
| AppState.RecipeApp.constructor | App.tsx:237-256 | the app starts with one blank row, "Jantar", no restrictions, nothing loading, the stored favourites, and all three invariants |
| AppState.RecipeApp.SaveRecipe | App.tsx:263-268 | the favourites become `Save` of the old list, with no change when the name is saved, and names stay unique and persisted |
| AppState.RecipeApp.RemoveRecipe | App.tsx:270-274 | the favourites become `RemoveNamed` of the old list, without the name, unchanged when absent, and persisted |
| AppState.RecipeApp.ViewSavedRecipe | App.tsx:276-280 | the favourite becomes the displayed recipe on the generator tab |
| AppState.RecipeApp.SetView | App.tsx:359-362 | the navigation buttons select the tab |
| AppState.RecipeApp.SetMealType | App.tsx:440 | the select sets the meal type |
| AppState.RecipeApp.ToggleDietary | App.tsx:282-288 | the restrictions become the toggle of the old list; the label's membership flips, no duplicate is introduced, and toggling a button's label keeps the restrictions among the button labels |
| AppState.RecipeApp.ChangeIngredientField | App.tsx:290-292 | the rows become the edited rows, and the form stays well formed |
| AppState.RecipeApp.AddIngredientRow | App.tsx:294-296 | one blank row is appended, and a fresh id keeps the form well formed |
| AppState.RecipeApp.RemoveIngredientRow | App.tsx:298-302 | a single row is never removed, and the form stays well formed |
| AppState.RecipeApp.Submit | App.tsx:304-319 | with no named row, the message is set and loading and recipe are untouched; otherwise loading starts, error and recipe are cleared, and a non-empty ingredients string is handed on |
| AppState.RecipeApp.Complete | App.tsx:321-328 | loading ends with the parsed value or the displayed error set; started from a cleared state, exactly one of them is set, except after a JSON `null`, which leaves both unset |
| AppState.RecipeApp.HandleSubmit | App.tsx:304-329 | run without other handlers during the `await`: a rejected submission only sets the message; a valid one ends not loading, with the generator's value as the recipe or, on failure, exactly the displayed text of the generator's error; exactly one of a recipe and an error is set, except after a JSON `null`, which leaves both unset; the error is one of the service's two messages |
| AppState.RecipeApp.ViewWhileLoading | App.tsx:276-328 | opening a favourite while a valid request is pending, and then the request failing, leaves both that favourite and the error set |

## Left out

- The service worker (service-worker.js) is not part of this model. It does cache-first fetch interception and install/activate handling over the browser Cache API and the network.
- The `GoogleGenAI` client, the `API_KEY` environment check and the `generateContent` call are left out. The call's outcome is the `respond` parameter of `HandleSubmit` and the `response` parameter of `GenerateRecipe`. `BuildRequest` builds the arguments the call receives.
- `JSON.parse` of the response text and its cast to `Recipe` are the `parse` parameter.
  - Its result is a recipe or `None` (the JSON `null`).
  - Other JSON values that are not recipes pass the unchecked cast in the program. The model treats them as recipes.
- `localStorage` and `JSON.stringify`/`JSON.parse` of the favourites are left out.
  - What storage holds is the ghost field `persisted`, kept equal to the list.
  - What the load effect reads is the constructor's `stored` parameter. Its names must be unique, because the code never checks them.
  - The failed-read fallback to `[]` is the caller passing the empty list.
- Rendering, `navigator.share`, the clipboard fallback, the share feedback timer and the scroll after viewing a favourite are left out. They are UI and timing.
- `Date.now()` row ids are a parameter of the constructor and of `AddIngredientRow`.
- AppState.RecipeApp.AddIngredientRow: keeps the form well formed only when the new id is fresh. Two rows stamped in the same millisecond share an id, and removing one of them then removes both. `RemoveIngredientKeepsARow` assumes distinct ids for that reason.
- AppState.RecipeApp.HandleSubmit: runs `Submit` and `Complete` back to back, with no handler in between. In the program only the form is disabled while loading. The tabs (App.tsx:359-364) and the favourites' view buttons stay active, so a favourite can be opened during the `await`. If the call then fails, both the recipe and the error are set and both are shown. `ViewWhileLoading` exhibits this sequence. The exactly-one promise of `HandleSubmit` does not cover it.
- AppState.RecipeApp.RemoveIngredientRow: `handleRemoveIngredient` checks the length of the rendered list but filters the updater's `prev`. The model has no interleaving of updates, so both are the same list.
- The unit options are UI only. The disabling of inputs while loading is also UI only.
- Console logging is left out.
- Strings are sequences of code points, while JavaScript strings are UTF-16. The lengths in `GeminiService.PromptTextLengths` count code points.
- The prompt is a deterministic function of the ingredients string, the meal type and the restrictions because `Prompt` is a Dafny function. No lemma states it.
- The meal type is not proved to be recoverable from the prompt text. The lemmas place it between quotes at a known offset, but do not show that it is the only such occurrence.
