/**
 * The ingredient REST controller of the backend: a keyed store of ingredients.
 * The repository's table is a sequence in `findAll` order whose ids are unique;
 * the controller creates (rejecting a name already stored), reads, updates and
 * deletes by id, raising not-found for an unknown id.
 */
module IngredientStore {
  import opened Wrappers
  import opened Models
  import opened Text

  /** The controller's exceptions: `IngredientExistsException` and `IngredientNotFoundException`. */
  datatype StoreError = IngredientExists(name: string) | IngredientNotFound(id: int)

  /** No two stored ingredients share an id (the table's primary key). */
  ghost predicate UniqueIds(items: seq<Ingredient>) {
    forall j, k :: 0 <= j < k < |items| ==> items[j].id != items[k].id
  }

  /** No two stored ingredients share a name. */
  ghost predicate UniqueNames(items: seq<Ingredient>) {
    forall j, k :: 0 <= j < k < |items| ==> items[j].name != items[k].name
  }

  /** Some stored ingredient has exactly this name (Java `String.equals`). */
  predicate NameTaken(items: seq<Ingredient>, name: string) {
    exists k :: 0 <= k < |items| && items[k].name == name
  }

  /** The position of the first ingredient with key `id`: the repository's `findById`. */
  function IndexOfId(items: seq<Ingredient>, id: int): (r: Option<nat>)
    ensures r.Some? ==> r.value < |items| && items[r.value].id == id
    ensures r.Some? ==> forall j :: 0 <= j < r.value ==> items[j].id != id
    ensures r.None? <==> forall k :: 0 <= k < |items| ==> items[k].id != id
  {
    if |items| == 0 then None
    else if items[0].id == id then Some(0)
    else match IndexOfId(items[1..], id)
      case None => None
      case Some(k) => Some(k + 1)
  }

  /** `getIngredientById`: the stored ingredient with key `id`, or not-found. */
  function Lookup(items: seq<Ingredient>, id: int): (r: Result<Ingredient, StoreError>)
    ensures r.Success? ==> r.value in items && r.value.id == id
    ensures r.Failure? <==> forall k :: 0 <= k < |items| ==> items[k].id != id
    ensures r.Failure? ==> r.error == IngredientNotFound(id)
  {
    match IndexOfId(items, id)
    case None => Failure(IngredientNotFound(id))
    case Some(k) => Success(items[k])
  }

  /** `newIngredient`: the ingredient saved under the fresh key `id`, unless the name is already stored. */
  function CreateResult(items: seq<Ingredient>, id: int, name: string, amount: int): (r: Result<Ingredient, StoreError>)
    ensures r.Failure? <==> exists k :: 0 <= k < |items| && items[k].name == name
    ensures r.Failure? ==> r.error == IngredientExists(name)
    ensures r.Success? ==> r.value == Ingredient(id, name, amount)
  {
    if NameTaken(items, name) then Failure(IngredientExists(name)) else Success(Ingredient(id, name, amount))
  }

  /** `updateIngredient`: the table after the entry with key `id` takes the new name and amount, or not-found. */
  function UpdateSpec(items: seq<Ingredient>, id: int, name: string, amount: int): (r: Result<seq<Ingredient>, StoreError>)
    ensures r.Failure? <==> forall k :: 0 <= k < |items| ==> items[k].id != id
    ensures r.Failure? ==> r.error == IngredientNotFound(id)
    ensures r.Success? ==> |r.value| == |items|
  {
    match IndexOfId(items, id)
    case None => Failure(IngredientNotFound(id))
    case Some(k) => Success(items[k := Ingredient(id, name, amount)])
  }

  /** `deleteIngredient`: the table without the entry with key `id`, or not-found. */
  function RemoveSpec(items: seq<Ingredient>, id: int): (r: Result<seq<Ingredient>, StoreError>)
    ensures r.Failure? <==> forall k :: 0 <= k < |items| ==> items[k].id != id
    ensures r.Failure? ==> r.error == IngredientNotFound(id)
    ensures r.Success? ==> |r.value| == |items| - 1
  {
    match IndexOfId(items, id)
    case None => Failure(IngredientNotFound(id))
    case Some(k) => Success(items[..k] + items[k + 1..])
  }

  /** Creating with a fresh key keeps keys unique, and keeps names unique when they were. */
  lemma CreatePreservesUniqueness(items: seq<Ingredient>, id: int, name: string, amount: int)
    requires UniqueIds(items)
    requires forall k :: 0 <= k < |items| ==> items[k].id < id
    requires CreateResult(items, id, name, amount).Success?
    ensures UniqueIds(items + [Ingredient(id, name, amount)])
    ensures UniqueNames(items) ==> UniqueNames(items + [Ingredient(id, name, amount)])
  {
    var s := items + [Ingredient(id, name, amount)];
    forall j, k | 0 <= j < k < |s| ensures s[j].id != s[k].id && (UniqueNames(items) ==> s[j].name != s[k].name) {
      if k == |items| {
        assert s[j] == items[j];
      }
    }
  }

  /** A successful creation is visible to a following get by id. */
  lemma CreateThenLookup(items: seq<Ingredient>, id: int, name: string, amount: int)
    requires forall k :: 0 <= k < |items| ==> items[k].id < id
    requires CreateResult(items, id, name, amount).Success?
    ensures Lookup(items + [Ingredient(id, name, amount)], id) == Success(Ingredient(id, name, amount))
  {
    var s := items + [Ingredient(id, name, amount)];
    assert s[|items|].id == id;
    assert forall j :: 0 <= j < |items| ==> s[j] == items[j];
  }

  /** Updating an existing key replaces only that entry's name and amount; its key and every other entry stay. */
  lemma UpdateChangesOnlyTarget(items: seq<Ingredient>, id: int, name: string, amount: int)
    requires UniqueIds(items)
    requires UpdateSpec(items, id, name, amount).Success?
    ensures var after := UpdateSpec(items, id, name, amount).value;
      && UniqueIds(after)
      && (forall k :: 0 <= k < |items| && items[k].id == id ==> after[k] == Ingredient(id, name, amount))
      && (forall k :: 0 <= k < |items| && items[k].id != id ==> after[k] == items[k])
  {
    var t := IndexOfId(items, id).value;
    var after := UpdateSpec(items, id, name, amount).value;
    assert after == items[t := Ingredient(id, name, amount)];
    assert forall k :: 0 <= k < |items| && items[k].id == id ==> k == t;
  }

  /** After an update, a get by the same id returns exactly the new name and amount under the old key. */
  lemma UpdateThenLookup(items: seq<Ingredient>, id: int, name: string, amount: int)
    requires UpdateSpec(items, id, name, amount).Success?
    ensures Lookup(UpdateSpec(items, id, name, amount).value, id) == Success(Ingredient(id, name, amount))
  {
    var t := IndexOfId(items, id).value;
    var after := UpdateSpec(items, id, name, amount).value;
    assert after[t].id == id;
    assert forall j :: 0 <= j < t ==> after[j] == items[j];
  }

  /**
   * Unlike creation, update performs no duplicate-name check: renaming one stored
   * ingredient to another's name succeeds and leaves two ingredients with one name.
   */
  lemma UpdateCanDuplicateName()
    ensures var items := [Ingredient(1, "Milk", 10), Ingredient(2, "Sugar", 5)];
      && CreateResult(items, 3, "Milk", 4).Failure?
      && UpdateSpec(items, 2, "Milk", 5).Success?
      && UniqueNames(items)
      && !UniqueNames(UpdateSpec(items, 2, "Milk", 5).value)
  {
    var items := [Ingredient(1, "Milk", 10), Ingredient(2, "Sugar", 5)];
    assert items[0].name == "Milk";
    var after := UpdateSpec(items, 2, "Milk", 5).value;
    assert IndexOfId(items, 2) == Some(1);
    assert after[0].name == after[1].name;
  }

  /** Deleting an existing key removes exactly that ingredient, and a later get by that id fails. */
  lemma RemoveDeletesExactlyTarget(items: seq<Ingredient>, id: int)
    requires UniqueIds(items)
    requires RemoveSpec(items, id).Success?
    ensures var after := RemoveSpec(items, id).value;
      && UniqueIds(after)
      && (forall g :: g in after <==> g in items && g.id != id)
      && Lookup(after, id).Failure?
  {
    var t := IndexOfId(items, id).value;
    var after := RemoveSpec(items, id).value;
    assert after == items[..t] + items[t + 1..];
    assert forall k :: 0 <= k < |after| ==> after[k] == items[if k < t then k else k + 1];
    forall g ensures g in after <==> g in items && g.id != id {
      if g in items && g.id != id {
        var k :| 0 <= k < |items| && items[k] == g;
        assert k != t;
        assert after[if k < t then k else k - 1] == g;
      }
    }
  }

  /**
   * The backend's `IngredientController` over its repository. `items` is the table in
   * `findAll` order; `nextId` stands for the generator of `@GeneratedValue` keys.
   */
  class IngredientController {
    var items: seq<Ingredient>
    var nextId: int

    /** Keys are unique and every key is below the next one generated. */
    ghost predicate Valid()
      reads this
    {
      && UniqueIds(items)
      && (forall k :: 0 <= k < |items| ==> items[k].id < nextId)
    }

    /** An empty repository. */
    constructor ()
      ensures Valid() && items == []
    {
      items := [];
      nextId := 1;
    }

    /** `getAllIngredients`: every stored ingredient, in table order. */
    method GetAllIngredients() returns (all: seq<Ingredient>)
      ensures all == items
    {
      all := items;
    }

    /** The repository's `findById`, scanning the table. */
    method FindById(id: int) returns (r: Option<nat>)
      ensures r == IndexOfId(items, id)
    {
      var i := 0;
      while i < |items|
        invariant 0 <= i <= |items|
        invariant forall k :: 0 <= k < i ==> items[k].id != id
      {
        if items[i].id == id {
          return Some(i);
        }
        i := i + 1;
      }
      return None;
    }

    /** `getIngredientById`: the stored ingredient with key `id`, or not-found. */
    method GetIngredientById(id: int) returns (r: Result<Ingredient, StoreError>)
      ensures r == Lookup(items, id)
      ensures r.Success? ==> r.value in items && r.value.id == id
      ensures r.Failure? <==> forall k :: 0 <= k < |items| ==> items[k].id != id
    {
      var found := FindById(id);
      if found.None? {
        return Failure(IngredientNotFound(id));
      }
      return Success(items[found.value]);
    }

    /**
     * `newIngredient`: scans the table for an equal name and throws
     * `IngredientExistsException` on the first match; otherwise saves the
     * ingredient under a fresh key.
     */
    method NewIngredient(name: string, amount: int) returns (r: Result<Ingredient, StoreError>)
      requires Valid()
      modifies this
      ensures Valid()
      ensures r == CreateResult(old(items), old(nextId), name, amount)
      ensures r.Failure? ==> items == old(items) && nextId == old(nextId) && r.error == IngredientExists(name)
      ensures r.Success? ==> items == old(items) + [r.value] && r.value.name == name && r.value.amount == amount
      ensures r.Success? ==> r.value.id == old(nextId) && nextId == old(nextId) + 1
      ensures r.Success? ==> UniqueNames(old(items)) ==> UniqueNames(items)
    {
      for i := 0 to |items|
        invariant forall k :: 0 <= k < i ==> items[k].name != name
      {
        if name == items[i].name {
          return Failure(IngredientExists(name));
        }
      }
      var saved := Ingredient(nextId, name, amount);
      CreatePreservesUniqueness(items, nextId, name, amount);
      items := items + [saved];
      nextId := nextId + 1;
      r := Success(saved);
    }

    /**
     * `updateIngredient`: finds the entry by key, sets its name and amount and saves it;
     * throws not-found for an unknown key.
     */
    method UpdateIngredient(id: int, name: string, amount: int) returns (r: Result<Ingredient, StoreError>)
      requires Valid()
      modifies this
      ensures Valid() && nextId == old(nextId)
      ensures r.Success? <==> UpdateSpec(old(items), id, name, amount).Success?
      ensures r.Success? ==> r.value == Ingredient(id, name, amount) && items == UpdateSpec(old(items), id, name, amount).value
      ensures r.Failure? ==> r.error == IngredientNotFound(id) && items == old(items)
    {
      var found := FindById(id);
      if found.None? {
        return Failure(IngredientNotFound(id));
      }
      var saved := Ingredient(id, name, amount);
      UpdateChangesOnlyTarget(items, id, name, amount);
      items := items[found.value := saved];
      r := Success(saved);
    }

    /** `deleteIngredient`: removes the entry with key `id`, or throws not-found. */
    method DeleteIngredient(id: int) returns (r: Result<string, StoreError>)
      requires Valid()
      modifies this
      ensures Valid() && nextId == old(nextId)
      ensures r.Success? <==> RemoveSpec(old(items), id).Success?
      ensures r.Success? ==> items == RemoveSpec(old(items), id).value
      ensures r.Success? ==> r.value == "Ingredient with id " + IntToString(id) + " has been deleted successfully."
      ensures r.Failure? ==> r.error == IngredientNotFound(id) && items == old(items)
    {
      var found := FindById(id);
      if found.None? {
        return Failure(IngredientNotFound(id));
      }
      RemoveDeletesExactlyTarget(items, id);
      assert RemoveSpec(items, id).value == items[..found.value] + items[found.value + 1..];
      items := items[..found.value] + items[found.value + 1..];
      r := Success("Ingredient with id " + IntToString(id) + " has been deleted successfully.");
    }
  }
}
