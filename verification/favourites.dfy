/**
 * The favourites collection: an ordered list of recipes in which
 * `recipeName` serves as the key. These are the list values the app's
 * handlers compute with `some`, spread and `filter`.
 */
module Favourites {
  import opened RecipeTypes

  /** No two saved recipes share a name. */
  predicate UniqueNames(list: seq<Recipe>) {
    forall i, j :: 0 <= i < j < |list| ==> list[i].recipeName != list[j].recipeName
  }

  /** `list.some(r => r.recipeName === name)`. */
  function HasName(list: seq<Recipe>, name: string): (b: bool)
    ensures b <==> exists i :: 0 <= i < |list| && list[i].recipeName == name
  {
    if list == [] then false
    else list[0].recipeName == name || HasName(list[1..], name)
  }

  /** `isRecipeSaved`: false for no recipe, otherwise whether its name is among the favourites. */
  function IsSaved(list: seq<Recipe>, r: Option<Recipe>): (b: bool)
    ensures b ==> r.Some?
    ensures r.Some? ==> (b <==> exists i :: 0 <= i < |list| && list[i].recipeName == r.value.recipeName)
  {
    match r
    case None => false
    case Some(x) => HasName(list, x.recipeName)
  }

  /** `handleSaveRecipe`'s new list: the recipe is appended unless its name is already saved. */
  function Save(list: seq<Recipe>, r: Recipe): (res: seq<Recipe>)
    ensures |res| == if HasName(list, r.recipeName) then |list| else |list| + 1
    ensures res[..|list|] == list
    ensures HasName(res, r.recipeName)
    ensures |res| > |list| ==> res[|list|] == r
    ensures UniqueNames(list) ==> UniqueNames(res)
  {
    if HasName(list, r.recipeName) then list
    else
      var res := list + [r];
      assert res[|list|].recipeName == r.recipeName;
      res
  }

  /** `handleRemoveRecipe`'s new list: `list.filter(r => r.recipeName !== name)`. */
  function RemoveNamed(list: seq<Recipe>, name: string): (res: seq<Recipe>)
    ensures !HasName(res, name)
    ensures |res| <= |list|
    ensures forall x :: x in res <==> x in list && x.recipeName != name
  {
    if list == [] then []
    else if list[0].recipeName == name then RemoveNamed(list[1..], name)
    else [list[0]] + RemoveNamed(list[1..], name)
  }

  /** Saving a recipe whose name is already present leaves the list unchanged. */
  lemma SaveExistingIsNoOp(list: seq<Recipe>, r: Recipe, i: nat)
    requires i < |list| && list[i].recipeName == r.recipeName
    ensures Save(list, r) == list
  {
  }

  /** Saving a recipe with a new name appends exactly that recipe at the end. */
  lemma SaveNewAppends(list: seq<Recipe>, r: Recipe)
    requires forall i :: 0 <= i < |list| ==> list[i].recipeName != r.recipeName
    ensures Save(list, r) == list + [r]
  {
  }

  /** Removal is a filter: it distributes over concatenation, so survivors keep their order. */
  lemma {:induction false} RemoveNamedConcat(a: seq<Recipe>, b: seq<Recipe>, name: string)
    ensures RemoveNamed(a + b, name) == RemoveNamed(a, name) + RemoveNamed(b, name)
  {
    if a == [] {
      assert a + b == b;
    } else {
      assert (a + b)[1..] == a[1..] + b;
      RemoveNamedConcat(a[1..], b, name);
    }
  }

  /** Removing an absent name leaves the list unchanged. */
  lemma {:induction false} RemoveAbsentIsNoOp(list: seq<Recipe>, name: string)
    requires !HasName(list, name)
    ensures RemoveNamed(list, name) == list
  {
    if list != [] {
      RemoveAbsentIsNoOp(list[1..], name);
    }
  }

  /** Removing keeps the names unique. */
  lemma {:induction false} RemovePreservesUnique(list: seq<Recipe>, name: string)
    requires UniqueNames(list)
    ensures UniqueNames(RemoveNamed(list, name))
  {
    if list != [] {
      RemovePreservesUnique(list[1..], name);
      var rest := RemoveNamed(list[1..], name);
      if list[0].recipeName != name {
        forall j | 0 <= j < |rest|
          ensures rest[j].recipeName != list[0].recipeName
        {
          assert rest[j] in list[1..];
        }
      }
    }
  }

  /** Removing the name of a recipe just saved under a new name restores the list. */
  lemma RemoveUndoesSave(list: seq<Recipe>, r: Recipe)
    requires !HasName(list, r.recipeName)
    ensures RemoveNamed(Save(list, r), r.recipeName) == list
  {
    RemoveNamedConcat(list, [r], r.recipeName);
    RemoveAbsentIsNoOp(list, r.recipeName);
  }
}
