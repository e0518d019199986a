/**
 * The values `handleSubmit` and `handleShare` compute from the form and from a
 * recipe: the rows that count as ingredients, the ingredients string sent to
 * the generator, and the text shared for a recipe.
 */
module Submission {
  import opened Text
  import opened RecipeTypes
  import opened FormEdits

  /** The message shown when no row has a name. */
  const NoIngredientsMessage: string := "Por favor, insira pelo menos um ingrediente."

  /** A row counts when `name.trim() !== ''`. */
  predicate IsValidRow(row: Ingredient) {
    Trim(row.name) != ""
  }

  /** `ingredients.filter(ing => ing.name.trim() !== '')`. */
  function ValidIngredients(rows: seq<Ingredient>): (r: seq<Ingredient>)
    ensures |r| <= |rows|
    ensures forall x :: x in r <==> x in rows && !IsBlank(x.name)
  {
    TrimEmptyIffBlank(if rows == [] then "" else rows[0].name);
    if rows == [] then []
    else if IsValidRow(rows[0]) then [rows[0]] + ValidIngredients(rows[1..])
    else ValidIngredients(rows[1..])
  }

  lemma {:induction false} ValidIngredientsConcat(a: seq<Ingredient>, b: seq<Ingredient>)
    ensures ValidIngredients(a + b) == ValidIngredients(a) + ValidIngredients(b)
  {
    if a == [] {
      assert a + b == b;
    } else {
      assert (a + b)[1..] == a[1..] + b;
      ValidIngredientsConcat(a[1..], b);
    }
  }

  /** `${quantity} ${unit} ${name}`.trim() */
  function Phrase(row: Ingredient): (r: string)
    ensures IsTrimmed(r)
  {
    Trim(row.quantity + " " + row.unit + " " + row.name)
  }

  /** The phrase of a row with a name ends with that name, trimmed, so it is never empty. */
  lemma PhraseEndsWithName(row: Ingredient)
    requires IsValidRow(row)
    ensures Phrase(row) != ""
    ensures |Trim(row.name)| <= |Phrase(row)|
    ensures Phrase(row)[|Phrase(row)| - |Trim(row.name)|..] == Trim(row.name)
  {
    var pre := row.quantity + " " + row.unit + " ";
    assert pre + row.name == row.quantity + " " + row.unit + " " + row.name;
    TrimEmptyIffBlank(row.name);
    TrimConcatEnd(pre, row.name);
  }

  /** All three parts filled and free of outer spaces: single spaces between them. */
  lemma PhraseOfFilledRow(row: Ingredient)
    requires row.quantity != "" && row.unit != "" && row.name != ""
    requires IsTrimmed(row.quantity) && IsTrimmed(row.unit) && IsTrimmed(row.name)
    ensures Phrase(row) == row.quantity + " " + row.unit + " " + row.name
  {
    TrimOfTrimmed(row.quantity + " " + row.unit + " " + row.name);
  }

  /** An empty unit leaves two spaces between the quantity and the name. */
  lemma PhraseWithoutUnit(row: Ingredient)
    requires row.quantity != "" && row.unit == "" && row.name != ""
    requires IsTrimmed(row.quantity) && IsTrimmed(row.name)
    ensures Phrase(row) == row.quantity + "  " + row.name
  {
    assert row.quantity + " " + row.unit + " " + row.name == row.quantity + "  " + row.name;
    TrimOfTrimmed(row.quantity + "  " + row.name);
  }

  /** With neither quantity nor unit the phrase is the trimmed name. */
  lemma PhraseOfNameOnly(row: Ingredient)
    requires row.quantity == "" && row.unit == ""
    ensures Phrase(row) == Trim(row.name)
  {
    assert row.quantity + " " + row.unit + " " + row.name == "  " + row.name + "";
    TrimIgnoresPadding("  ", row.name, "");
  }

  /** `.map(ing => phrase)` */
  function Phrases(rows: seq<Ingredient>): (r: seq<string>)
    ensures |r| == |rows|
    ensures forall i :: 0 <= i < |rows| ==> r[i] == Phrase(rows[i])
  {
    if rows == [] then [] else [Phrase(rows[0])] + Phrases(rows[1..])
  }

  /** The ingredients string passed to the generator. */
  function IngredientsString(rows: seq<Ingredient>): string {
    Join(Phrases(ValidIngredients(rows)), ", ")
  }

  /** The ingredients string is empty exactly when no row has a name, the case the form rejects. */
  lemma IngredientsStringEmptyIff(rows: seq<Ingredient>)
    ensures IngredientsString(rows) == "" <==> ValidIngredients(rows) == []
  {
    var v := ValidIngredients(rows);
    if v != [] {
      assert v[0] in v;
      PhraseEndsWithName(v[0]);
    }
  }

  /** Adding a row adds its phrase at the end, after ", " when earlier rows contributed. */
  lemma IngredientsStringSnoc(rows: seq<Ingredient>, row: Ingredient)
    ensures IngredientsString(rows + [row]) ==
      if !IsValidRow(row) then IngredientsString(rows)
      else if ValidIngredients(rows) == [] then Phrase(row)
      else IngredientsString(rows) + ", " + Phrase(row)
  {
    ValidIngredientsConcat(rows, [row]);
    var v := ValidIngredients(rows);
    assert [row][1..] == [];
    if IsValidRow(row) {
      assert ValidIngredients(rows + [row]) == v + [row];
      PhrasesSnoc(v, row);
      if v != [] {
        JoinSnoc(Phrases(v), Phrase(row), ", ");
      }
    } else {
      assert ValidIngredients(rows + [row]) == v;
    }
  }

  lemma PhrasesSnoc(rows: seq<Ingredient>, row: Ingredient)
    ensures Phrases(rows + [row]) == Phrases(rows) + [Phrase(row)]
  {
  }

  /** `items.map(ing => `- ${ing}`)` */
  function Bullets(items: seq<string>): (r: seq<string>)
    ensures |r| == |items|
    ensures forall i :: 0 <= i < |items| ==> r[i] == "- " + items[i]
  {
    if items == [] then [] else ["- " + items[0]] + Bullets(items[1..])
  }

  /** The steps numbered from `first`: `${i + 1}. ${step}` for the 0-based index `i`. */
  function NumberedFrom(steps: seq<string>, first: nat): (r: seq<string>)
    ensures |r| == |steps|
    ensures forall i :: 0 <= i < |steps| ==> r[i] == NatToString(first + i) + ". " + steps[i]
  {
    if steps == [] then [] else [NatToString(first) + ". " + steps[0]] + NumberedFrom(steps[1..], first + 1)
  }

  /** The bulleted ingredient lines of the share text. */
  function IngredientsText(r: Recipe): string {
    Join(Bullets(r.ingredients), "\n")
  }

  /** The numbered instruction lines of the share text. */
  function InstructionsText(r: Recipe): string {
    Join(NumberedFrom(r.instructions, 1), "\n")
  }

  /** Ingredients without line breaks come back one per line, each behind its bullet, in order. */
  lemma IngredientLinesReadBack(r: Recipe)
    requires |r.ingredients| >= 1
    requires forall i :: 0 <= i < |r.ingredients| ==> '\n' !in r.ingredients[i]
    ensures Split(IngredientsText(r), '\n') == Bullets(r.ingredients)
  {
    var b := Bullets(r.ingredients);
    forall i | 0 <= i < |b| ensures '\n' !in b[i] {
      assert b[i] == "- " + r.ingredients[i];
    }
    assert "\n" == ['\n'];
    SplitJoin(b, '\n');
  }

  /** Step `i` (0-based) is numbered `i + 1`: its line opens with that number's digits and a period. */
  lemma InstructionNumber(r: Recipe, i: nat)
    requires i < |r.instructions|
    ensures var line := NumberedFrom(r.instructions, 1)[i];
      var n := NatToString(i + 1);
      && |n| + 1 < |line| && line[|n|] == '.' && line[|n| + 1] == ' '
      && IsDigits(line[..|n|]) && DecimalValue(line[..|n|]) == i + 1
      && line[|n| + 2..] == r.instructions[i]
  {
    var line := NumberedFrom(r.instructions, 1)[i];
    var n := NatToString(i + 1);
    assert line == n + ". " + r.instructions[i];
    assert line[..|n|] == n;
    NatToStringRoundTrip(i + 1);
  }

  /** The lines of the share template, before `.trim()`. */
  function ShareLines(r: Recipe): seq<string> {
    [ "",
      "Receita: " + r.recipeName,
      "",
      r.description,
      "",
      "\U{1F374} Porções: " + r.servings,
      "\U{1F373} Preparo: " + r.prepTime,
      "\U{1F525} Cozimento: " + r.cookTime,
      "",
      "\U{1F4CB} Ingredientes:",
      IngredientsText(r),
      "",
      "\U{1F4DD} Instruções:",
      InstructionsText(r),
      "        " ]
  }

  /** The shared text: the template's lines, trimmed at both ends. */
  function ShareText(r: Recipe): (t: string)
    ensures IsTrimmed(t)
  {
    Trim(Join(ShareLines(r), "\n"))
  }

  /** The shared text opens with the recipe's name, the template's leading line break cut away. */
  lemma ShareTextHeader(r: Recipe)
    ensures "Receita: " + r.recipeName <= ShareText(r)
  {
    var lines := ShareLines(r);
    assert lines[0] == "" && lines[1] == "Receita: " + r.recipeName;
    assert lines[1][0] == 'R';
    assert lines[5][0] == '\U{1F374}';
    JoinTrimStart(lines, "\n", 5);
  }

  /** With at least one step, the shared text ends with the numbered steps, the template's trailing indentation cut away. */
  lemma ShareTextFooter(r: Recipe)
    requires |r.instructions| > 0
    ensures |Trim(InstructionsText(r))| <= |ShareText(r)|
    ensures ShareText(r)[|ShareText(r)| - |Trim(InstructionsText(r))|..] == Trim(InstructionsText(r))
  {
    var lines := ShareLines(r);
    var steps := InstructionsText(r);
    assert lines[14] == "        " && lines[13] == steps;
    var first := NumberedFrom(r.instructions, 1)[0];
    assert first == NatToString(1) + ". " + r.instructions[0];
    assert !IsWhitespace(steps[0]) by {
      assert steps[0] == first[0] == NatToString(1)[0];
    }
    JoinTrimEnd(lines, "\n");
  }
}
