/**
 * The "Add Recipe" form of the recipe page: validation of the recipe's name and price,
 * then the walk over the inventory table that collects the ticked ingredients with their
 * typed amounts into the component's `selectedIngredients` list and decides between
 * posting the recipe and one of three alerts.
 */
module Recipes {
  import opened Wrappers
  import opened Models

  // ---------------------------------------------------------------- form and errors

  /**
   * The price input as the form record holds it: never typed (the key is absent),
   * typed and cleared (the empty string), or a number.
   */
  datatype PriceField = Unset | Blank | Entered(value: int)

  /** The form record: the name (absent until typed) and the price. */
  datatype RecipeForm = RecipeForm(name: Option<string>, price: PriceField)

  /** The error record: a message per field, absent when the field is fine. */
  datatype FormErrors = FormErrors(name: Option<string>, price: Option<string>)

  /** An error record with no message stops nothing. */
  predicate NoErrors(e: FormErrors) {
    e.name.None? && e.price.None?
  }

  /**
   * The form check. A name is refused when absent or empty (a name of spaces passes).
   * A price gets "Please enter a price" when absent; an empty or non-positive price gets
   * "Price must be greater than 0", the second test overriding the first for the empty
   * string, which is also falsy.
   */
  function FindFormErrors(form: RecipeForm): (e: FormErrors)
    ensures e.name.Some? <==> form.name.None? || form.name.value == ""
    ensures e.name.Some? ==> e.name.value == "Please enter a name"
    ensures e.price == Some("Please enter a price") <==> form.price.Unset?
    ensures e.price == Some("Price must be greater than 0") <==> form.price.Blank? || (form.price.Entered? && form.price.value <= 0)
    ensures NoErrors(e) <==> form.name.Some? && form.name.value != "" && form.price.Entered? && form.price.value > 0
  {
    var nameError := if form.name.None? || form.name.value == "" then Some("Please enter a name") else None;
    var priceError :=
      match form.price
      case Unset => Some("Please enter a price")
      case Blank => Some("Price must be greater than 0")
      case Entered(v) => if v <= 0 then Some("Price must be greater than 0") else None;
    FormErrors(nameError, priceError)
  }

  // ---------------------------------------------------------------- the ingredient table

  /**
   * One row of the ingredient table, in inventory order: whether it is ticked, the
   * ingredient's name, and the amount typed into it (None while nothing was typed;
   * a typed-then-cleared amount fails every test a zero fails and is written Some(0)).
   */
  datatype IngredientRow = IngredientRow(select: bool, name: string, entered: Option<int>)

  /** A ticked row with no positive typed amount: raises "cannot be blank". */
  predicate BlankAmount(row: IngredientRow) {
    row.select && !(row.entered.Some? && row.entered.value > 0)
  }

  /** A ticked row with a positive typed amount above the stock at the same index. */
  predicate OverStock(row: IngredientRow, stock: Ingredient) {
    row.select && row.entered.Some? && row.entered.value > 0 && row.entered.value > stock.amount
  }

  /** The entry a row pushes: ticked, positive and within the stock at the same index. */
  function RowEntry(row: IngredientRow, stock: Ingredient): (r: Option<RecipeIngredient>)
    ensures r.Some? <==> row.select && row.entered.Some? && 0 < row.entered.value <= stock.amount
    ensures r.Some? ==> r.value == RecipeIngredient(row.name, row.entered.value)
  {
    if row.select && row.entered.Some? && row.entered.value > 0 && row.entered.value <= stock.amount
    then Some(RecipeIngredient(row.name, row.entered.value))
    else None
  }

  /** The entries pushed by the first `n` rows, in table order. */
  function PickedUpTo(rows: seq<IngredientRow>, inventory: seq<Ingredient>, n: nat): seq<RecipeIngredient>
    requires n <= |rows| == |inventory|
  {
    if n == 0 then []
    else PickedUpTo(rows, inventory, n - 1) + (match RowEntry(rows[n - 1], inventory[n - 1]) case None => [] case Some(x) => [x])
  }

  /** The entries pushed by the whole table. */
  function Picked(rows: seq<IngredientRow>, inventory: seq<Ingredient>): seq<RecipeIngredient>
    requires |rows| == |inventory|
  {
    PickedUpTo(rows, inventory, |rows|)
  }

  /** Some ticked row among the first `n` has no positive amount. */
  predicate AnyBlankUpTo(rows: seq<IngredientRow>, n: nat)
    requires n <= |rows|
  {
    exists i :: 0 <= i < n && BlankAmount(rows[i])
  }

  /** Some ticked row among the first `n` asks for more than its stock. */
  predicate AnyOverUpTo(rows: seq<IngredientRow>, inventory: seq<Ingredient>, n: nat)
    requires n <= |rows| == |inventory|
  {
    exists i :: 0 <= i < n && OverStock(rows[i], inventory[i])
  }

  /** The ticked rows as recipe entries (name and typed amount), in table order: an independent reading of "what was selected". */
  function Chosen(rows: seq<IngredientRow>): seq<RecipeIngredient> {
    if rows == [] then []
    else
      var last := rows[|rows| - 1];
      Chosen(rows[..|rows| - 1]) + (if last.select then [RecipeIngredient(last.name, if last.entered.Some? then last.entered.value else 0)] else [])
  }

  // ---------------------------------------------------------------- the submission

  /** What a click on "Add Recipe" does. */
  datatype SubmitOutcome =
    | FormRejected(errors: FormErrors)
    | AmountBlank
    | AmountOverStock
    | NoIngredientSelected
    | PostRecipe(name: string, price: int, recipeIngredients: seq<RecipeIngredient>)
  {
    /** The alert shown for the three table failures; the other outcomes show none. */
    function Alert(): (m: string)
      ensures |m| > 0 <==> this.AmountBlank? || this.AmountOverStock? || this.NoIngredientSelected?
      ensures this.AmountBlank? ==> m == "Ingredient amount(s) cannot be blank"
      ensures this.AmountOverStock? ==> m == "Ingredient amount(s) entered is more than whats available"
      ensures this.NoIngredientSelected? ==> m == "Please select at least one ingredient"
    {
      match this
      case AmountBlank => "Ingredient amount(s) cannot be blank"
      case AmountOverStock => "Ingredient amount(s) entered is more than whats available"
      case NoIngredientSelected => "Please select at least one ingredient"
      case _ => ""
    }
  }

  /**
   * The reference outcome and the new `selectedIngredients`: form errors leave the list
   * alone; otherwise the picked entries are appended to it, then a blank amount, an
   * amount over stock or an empty list (in that order) empties it and raises its alert,
   * and a non-empty list is posted with the form's name and price.
   */
  function SubmitSpec(prior: seq<RecipeIngredient>, form: RecipeForm, rows: seq<IngredientRow>, inventory: seq<Ingredient>): (SubmitOutcome, seq<RecipeIngredient>)
    requires |rows| == |inventory|
  {
    var errors := FindFormErrors(form);
    if !NoErrors(errors) then (FormRejected(errors), prior)
    else if AnyBlankUpTo(rows, |rows|) then (AmountBlank, [])
    else if AnyOverUpTo(rows, inventory, |rows|) then (AmountOverStock, [])
    else if |prior + Picked(rows, inventory)| == 0 then (NoIngredientSelected, [])
    else (PostRecipe(form.name.value, form.price.value, prior + Picked(rows, inventory)), prior + Picked(rows, inventory))
  }

  /** The component's recipe under construction: the list `onSubmit` pushes into in place. */
  class RecipeEditor {
    var selectedIngredients: seq<RecipeIngredient>

    constructor()
      ensures selectedIngredients == []
    {
      selectedIngredients := [];
    }

    /** The walk over the table: flags for blank and over-stock amounts, pushing every good row. */
    method CollectIngredients(rows: seq<IngredientRow>, inventory: seq<Ingredient>) returns (amountFlag: bool, overFlag: bool)
      requires |rows| == |inventory|
      modifies this
      ensures amountFlag == !AnyBlankUpTo(rows, |rows|)
      ensures overFlag == !AnyOverUpTo(rows, inventory, |rows|)
      ensures selectedIngredients == old(selectedIngredients) + Picked(rows, inventory)
    {
      amountFlag, overFlag := true, true;
      var i := 0;
      while i < |rows|
        invariant 0 <= i <= |rows|
        invariant amountFlag == !AnyBlankUpTo(rows, i)
        invariant overFlag == !AnyOverUpTo(rows, inventory, i)
        invariant selectedIngredients == old(selectedIngredients) + PickedUpTo(rows, inventory, i)
      {
        var ingredient := rows[i];
        if ingredient.select {
          if ingredient.entered.Some? && ingredient.entered.value > 0 {
            if ingredient.entered.value <= inventory[i].amount {
              selectedIngredients := selectedIngredients + [RecipeIngredient(ingredient.name, ingredient.entered.value)];
            } else {
              overFlag := false;
            }
          } else {
            amountFlag := false;
          }
        }
        i := i + 1;
      }
    }

    /** A click on "Add Recipe". */
    method OnSubmit(form: RecipeForm, rows: seq<IngredientRow>, inventory: seq<Ingredient>) returns (out: SubmitOutcome)
      requires |rows| == |inventory|
      modifies this
      ensures (out, selectedIngredients) == SubmitSpec(old(selectedIngredients), form, rows, inventory)
    {
      var newErrors := FindFormErrors(form);
      if !NoErrors(newErrors) {
        return FormRejected(newErrors);
      }
      var amountFlag, overFlag := CollectIngredients(rows, inventory);
      if amountFlag {
        if overFlag {
          if |selectedIngredients| != 0 {
            out := PostRecipe(form.name.value, form.price.value, selectedIngredients);
          } else {
            selectedIngredients := [];
            out := NoIngredientSelected;
          }
        } else {
          selectedIngredients := [];
          out := AmountOverStock;
        }
      } else {
        selectedIngredients := [];
        out := AmountBlank;
      }
    }
  }

  // ---------------------------------------------------------------- properties

  /** Every pushed entry comes from a ticked row at the same index, with its name and a typed amount in (0, stock]. */
  lemma {:induction false} PickedEntriesInBounds(rows: seq<IngredientRow>, inventory: seq<Ingredient>, n: nat, x: RecipeIngredient)
    requires n <= |rows| == |inventory|
    ensures x in PickedUpTo(rows, inventory, n) <==>
      exists i :: 0 <= i < n && rows[i].select && rows[i].name == x.name && rows[i].entered == Some(x.amount) && 0 < x.amount <= inventory[i].amount
  {
    if n > 0 {
      PickedEntriesInBounds(rows, inventory, n - 1, x);
      if x in PickedUpTo(rows, inventory, n) && x !in PickedUpTo(rows, inventory, n - 1) {
        assert RowEntry(rows[n - 1], inventory[n - 1]) == Some(x);
      }
    }
  }

  /** With no blank and no over-stock row, the pushed entries are exactly the ticked rows, in table order. */
  lemma {:induction false} PickedIsChosen(rows: seq<IngredientRow>, inventory: seq<Ingredient>, n: nat)
    requires n <= |rows| == |inventory|
    requires !AnyBlankUpTo(rows, n) && !AnyOverUpTo(rows, inventory, n)
    ensures PickedUpTo(rows, inventory, n) == Chosen(rows[..n])
  {
    if n > 0 {
      assert rows[..n][..n - 1] == rows[..n - 1];
      assert forall i :: 0 <= i < n ==> !BlankAmount(rows[i]) && !OverStock(rows[i], inventory[i]);
      PickedIsChosen(rows, inventory, n - 1);
      assert !BlankAmount(rows[n - 1]) && !OverStock(rows[n - 1], inventory[n - 1]);
    }
  }

  /** What typed into an unticked row never matters: two tables with the same ticked rows submit alike. */
  lemma {:induction false} UnselectedRowsIgnored(rows: seq<IngredientRow>, rows': seq<IngredientRow>, inventory: seq<Ingredient>, n: nat)
    requires n <= |rows| == |rows'| == |inventory|
    requires forall i :: 0 <= i < |rows| ==> rows[i].select == rows'[i].select && (rows[i].select ==> rows[i] == rows'[i])
    ensures PickedUpTo(rows, inventory, n) == PickedUpTo(rows', inventory, n)
    ensures AnyBlankUpTo(rows, n) == AnyBlankUpTo(rows', n)
    ensures AnyOverUpTo(rows, inventory, n) == AnyOverUpTo(rows', inventory, n)
  {
    if n > 0 {
      UnselectedRowsIgnored(rows, rows', inventory, n - 1);
      assert RowEntry(rows[n - 1], inventory[n - 1]) == RowEntry(rows'[n - 1], inventory[n - 1]);
      assert BlankAmount(rows[n - 1]) == BlankAmount(rows'[n - 1]);
      assert OverStock(rows[n - 1], inventory[n - 1]) == OverStock(rows'[n - 1], inventory[n - 1]);
    }
  }

  /** Hence the whole submission is the same for both tables. */
  lemma SubmitIgnoresUnselectedRows(prior: seq<RecipeIngredient>, form: RecipeForm, rows: seq<IngredientRow>, rows': seq<IngredientRow>, inventory: seq<Ingredient>)
    requires |rows| == |rows'| == |inventory|
    requires forall i :: 0 <= i < |rows| ==> rows[i].select == rows'[i].select && (rows[i].select ==> rows[i] == rows'[i])
    ensures SubmitSpec(prior, form, rows, inventory) == SubmitSpec(prior, form, rows', inventory)
  {
    UnselectedRowsIgnored(rows, rows', inventory, |rows|);
  }

  /** With no row ticked, nothing is pushed. */
  lemma {:induction false} NothingTickedPicksNothing(rows: seq<IngredientRow>, inventory: seq<Ingredient>, n: nat)
    requires n <= |rows| == |inventory|
    requires forall i :: 0 <= i < n ==> !rows[i].select
    ensures PickedUpTo(rows, inventory, n) == []
  {
    if n > 0 {
      NothingTickedPicksNothing(rows, inventory, n - 1);
      assert RowEntry(rows[n - 1], inventory[n - 1]).None?;
    }
  }

  /**
   * The order of the checks: form errors stop everything and leave the list alone; then a
   * ticked row with no positive amount, then a ticked row over its stock, then nothing
   * picked; each of these empties the list and posts nothing.
   */
  lemma SubmitErrorPriority(prior: seq<RecipeIngredient>, form: RecipeForm, rows: seq<IngredientRow>, inventory: seq<Ingredient>)
    requires |rows| == |inventory|
    ensures var (out, after) := SubmitSpec(prior, form, rows, inventory);
      && (out.FormRejected? <==> !NoErrors(FindFormErrors(form)))
      && (out.FormRejected? ==> after == prior)
      && (out == AmountBlank <==> NoErrors(FindFormErrors(form)) && exists i :: 0 <= i < |rows| && BlankAmount(rows[i]))
      && (out == AmountOverStock <==>
            NoErrors(FindFormErrors(form)) && !AnyBlankUpTo(rows, |rows|) && exists i :: 0 <= i < |rows| && OverStock(rows[i], inventory[i]))
      && (out == NoIngredientSelected ==> prior == [] && forall i :: 0 <= i < |rows| ==> !rows[i].select)
      && (prior == [] ==> (out == NoIngredientSelected <==> NoErrors(FindFormErrors(form)) && forall i :: 0 <= i < |rows| ==> !rows[i].select))
      && (!out.PostRecipe? && !out.FormRejected? ==> after == [])
  {
    var (out, after) := SubmitSpec(prior, form, rows, inventory);
    if forall i :: 0 <= i < |rows| ==> !rows[i].select {
      NothingTickedPicksNothing(rows, inventory, |rows|);
    }
    if out == NoIngredientSelected {
      forall i | 0 <= i < |rows| ensures !rows[i].select {
        if rows[i].select {
          assert !BlankAmount(rows[i]) && !OverStock(rows[i], inventory[i]);
          PickedEntriesInBounds(rows, inventory, |rows|, RecipeIngredient(rows[i].name, rows[i].entered.value));
        }
      }
    }
  }

  /**
   * From an empty list, a posted recipe carries the form's name and price and exactly the
   * ticked ingredients in table order, each with a typed amount in (0, stock].
   */
  lemma FreshSubmitPostsSelection(form: RecipeForm, rows: seq<IngredientRow>, inventory: seq<Ingredient>)
    requires |rows| == |inventory|
    ensures var (out, _) := SubmitSpec([], form, rows, inventory);
      out.PostRecipe? ==>
        && form.name == Some(out.name) && out.name != ""
        && form.price == Entered(out.price) && out.price > 0
        && out.recipeIngredients == Chosen(rows)
        && out.recipeIngredients != []
        && forall x :: x in out.recipeIngredients ==>
             exists i :: 0 <= i < |rows| && rows[i].select && rows[i].name == x.name && 0 < x.amount <= inventory[i].amount
  {
    var (out, _) := SubmitSpec([], form, rows, inventory);
    if out.PostRecipe? {
      assert [] + Picked(rows, inventory) == Picked(rows, inventory);
      assert rows[..|rows|] == rows;
      PickedIsChosen(rows, inventory, |rows|);
      forall x | x in out.recipeIngredients
        ensures exists i :: 0 <= i < |rows| && rows[i].select && rows[i].name == x.name && 0 < x.amount <= inventory[i].amount
      {
        PickedEntriesInBounds(rows, inventory, |rows|, x);
      }
    }
  }
}
