/**
 * The new form values computed by the form handlers: the dietary-restriction
 * toggle and the edits to the ingredient rows.
 */
module FormEdits {

  /** One row of the ingredient form; `id` is the row's creation timestamp. */
  datatype Ingredient = Ingredient(id: int, name: string, quantity: string, unit: string)

  /** The editable members of a row (every member but `id`). */
  datatype Field = Name | Quantity | Unit

  /** A fresh, blank row. */
  function BlankRow(id: int): Ingredient {
    Ingredient(id, "", "", "")
  }

  function GetField(row: Ingredient, f: Field): string {
    match f
    case Name => row.name
    case Quantity => row.quantity
    case Unit => row.unit
  }

  /** No two rows share an id. */
  predicate DistinctIds(rows: seq<Ingredient>) {
    forall i, j :: 0 <= i < j < |rows| ==> rows[i].id != rows[j].id
  }

  predicate HasId(rows: seq<Ingredient>, id: int) {
    exists i :: 0 <= i < |rows| && rows[i].id == id
  }

  /** `labels.filter(item => item !== x)`. */
  function RemoveAll(labels: seq<string>, x: string): (r: seq<string>)
    ensures x !in r
    ensures forall y :: y != x ==> (y in r <==> y in labels)
  {
    if labels == [] then []
    else if labels[0] == x then RemoveAll(labels[1..], x)
    else [labels[0]] + RemoveAll(labels[1..], x)
  }

  /** The label filter distributes over concatenation, so the remaining labels keep their order. */
  lemma {:induction false} RemoveAllConcat(a: seq<string>, b: seq<string>, x: string)
    ensures RemoveAll(a + b, x) == RemoveAll(a, x) + RemoveAll(b, x)
  {
    if a == [] {
      assert a + b == b;
    } else {
      assert (a + b)[1..] == a[1..] + b;
      RemoveAllConcat(a[1..], b, x);
    }
  }

  /** `handleDietaryChange`: drop every occurrence of a selected label, or append an unselected one. */
  function ToggleRestriction(labels: seq<string>, option: string): (r: seq<string>)
    ensures option in r <==> option !in labels
    ensures forall y :: y != option ==> (y in r <==> y in labels)
    ensures option !in labels ==> r == labels + [option]
  {
    if option in labels then RemoveAll(labels, option) else labels + [option]
  }

  predicate NoDuplicates(labels: seq<string>) {
    forall i, j :: 0 <= i < j < |labels| ==> labels[i] != labels[j]
  }

  lemma {:induction false} RemoveAllKeepsNoDuplicates(labels: seq<string>, x: string)
    requires NoDuplicates(labels)
    ensures NoDuplicates(RemoveAll(labels, x))
  {
    if labels != [] {
      RemoveAllKeepsNoDuplicates(labels[1..], x);
      var rest := RemoveAll(labels[1..], x);
      if labels[0] != x {
        assert labels[0] !in labels[1..];
        forall j | 0 <= j < |rest| ensures rest[j] != labels[0] {
          assert rest[j] in rest;
        }
      }
    }
  }

  /** The toggle never introduces a duplicate label. */
  lemma ToggleKeepsNoDuplicates(labels: seq<string>, option: string)
    requires NoDuplicates(labels)
    ensures NoDuplicates(ToggleRestriction(labels, option))
  {
    if option in labels {
      RemoveAllKeepsNoDuplicates(labels, option);
    }
  }

  lemma {:induction false} RemoveAllAbsent(labels: seq<string>, x: string)
    requires x !in labels
    ensures RemoveAll(labels, x) == labels
  {
    if labels != [] {
      RemoveAllAbsent(labels[1..], x);
    }
  }

  /** Selecting an unselected label and then deselecting it restores the list. */
  lemma {:induction false} ToggleTwiceRestores(labels: seq<string>, option: string)
    requires option !in labels
    ensures ToggleRestriction(ToggleRestriction(labels, option), option) == labels
  {
    var once := labels + [option];
    assert option in once;
    assert forall k :: 0 <= k < |labels| ==> once[k] == labels[k];
    RemoveAllSnoc(labels, option);
    RemoveAllAbsent(labels, option);
  }

  lemma {:induction false} RemoveAllSnoc(labels: seq<string>, x: string)
    ensures RemoveAll(labels + [x], x) == RemoveAll(labels, x)
  {
    if labels == [] {
      assert RemoveAll([x], x) == RemoveAll([], x);
    } else {
      assert (labels + [x])[1..] == labels[1..] + [x];
      RemoveAllSnoc(labels[1..], x);
    }
  }

  /** `{ ...row, [field]: value }`: only `field` takes the new value. */
  function WithField(row: Ingredient, field: Field, value: string): (r: Ingredient)
    ensures r.id == row.id
    ensures GetField(r, field) == value
    ensures forall f :: f != field ==> GetField(r, f) == GetField(row, f)
  {
    match field
    case Name => row.(name := value)
    case Quantity => row.(quantity := value)
    case Unit => row.(unit := value)
  }

  /** `handleIngredientChange`: rows whose id matches get the new field value; the rest are untouched. */
  function ChangeIngredient(rows: seq<Ingredient>, id: int, field: Field, value: string): (r: seq<Ingredient>)
    ensures |r| == |rows|
    ensures forall i :: 0 <= i < |rows| ==> r[i].id == rows[i].id
    ensures forall i :: 0 <= i < |rows| && rows[i].id != id ==> r[i] == rows[i]
    ensures forall i, f :: 0 <= i < |rows| && rows[i].id == id ==>
      GetField(r[i], field) == value && (f != field ==> GetField(r[i], f) == GetField(rows[i], f))
  {
    if rows == [] then []
    else [if rows[0].id == id then WithField(rows[0], field, value) else rows[0]]
         + ChangeIngredient(rows[1..], id, field, value)
  }

  /** `handleAddIngredient`: one blank row appended. */
  function AddIngredient(rows: seq<Ingredient>, id: int): (r: seq<Ingredient>)
    ensures |r| == |rows| + 1 && r[..|rows|] == rows
    ensures r[|rows|] == BlankRow(id)
    ensures DistinctIds(rows) && !HasId(rows, id) ==> DistinctIds(r)
  {
    rows + [BlankRow(id)]
  }

  /** `rows.filter(ing => ing.id !== id)`. */
  function RemoveId(rows: seq<Ingredient>, id: int): (r: seq<Ingredient>)
    ensures forall x :: x in r <==> x in rows && x.id != id
    ensures |r| <= |rows|
  {
    if rows == [] then []
    else if rows[0].id == id then RemoveId(rows[1..], id)
    else [rows[0]] + RemoveId(rows[1..], id)
  }

  /** The row filter distributes over concatenation, so the remaining rows keep their order. */
  lemma {:induction false} RemoveIdConcat(a: seq<Ingredient>, b: seq<Ingredient>, id: int)
    ensures RemoveId(a + b, id) == RemoveId(a, id) + RemoveId(b, id)
  {
    if a == [] {
      assert a + b == b;
    } else {
      assert (a + b)[1..] == a[1..] + b;
      RemoveIdConcat(a[1..], b, id);
    }
  }

  /** `handleRemoveIngredient`: refused when a single row is left, otherwise the row's id is filtered out. */
  function RemoveIngredient(rows: seq<Ingredient>, id: int): (r: seq<Ingredient>)
    ensures |rows| <= 1 ==> r == rows
    ensures |rows| > 1 ==> forall x :: x in r <==> x in rows && x.id != id
    ensures forall x :: x in r ==> x in rows
  {
    if |rows| > 1 then RemoveId(rows, id) else rows
  }

  /** With distinct ids the filter drops at most one row. */
  lemma {:induction false} RemoveIdDropsAtMostOne(rows: seq<Ingredient>, id: int)
    requires DistinctIds(rows)
    ensures |RemoveId(rows, id)| >= |rows| - 1
    ensures DistinctIds(RemoveId(rows, id))
  {
    if rows != [] {
      RemoveIdDropsAtMostOne(rows[1..], id);
      var rest := RemoveId(rows[1..], id);
      if rows[0].id == id {
        RemoveIdAbsent(rows[1..], id);
      } else {
        forall j | 0 <= j < |rest| ensures rest[j].id != rows[0].id {
          assert rest[j] in rows[1..];
        }
      }
    }
  }

  lemma {:induction false} RemoveIdAbsent(rows: seq<Ingredient>, id: int)
    requires !HasId(rows, id)
    ensures RemoveId(rows, id) == rows
  {
    if rows != [] {
      assert !HasId(rows[1..], id) by {
        forall i | 0 <= i < |rows| - 1 ensures rows[1..][i].id != id {
          assert rows[1..][i] == rows[i + 1];
        }
      }
      RemoveIdAbsent(rows[1..], id);
    }
  }

  /** With distinct ids, removing rows one by one never empties the form. */
  lemma RemoveIngredientKeepsARow(rows: seq<Ingredient>, id: int)
    requires DistinctIds(rows) && |rows| >= 1
    ensures |RemoveIngredient(rows, id)| >= 1
    ensures DistinctIds(RemoveIngredient(rows, id))
  {
    if |rows| > 1 {
      RemoveIdDropsAtMostOne(rows, id);
    }
  }

  /** Editing keeps the ids, so it keeps them distinct. */
  lemma ChangeKeepsIds(rows: seq<Ingredient>, id: int, field: Field, value: string)
    requires DistinctIds(rows)
    ensures DistinctIds(ChangeIngredient(rows, id, field, value))
  {
  }
}
