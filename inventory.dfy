/**
 * The "Add Ingredient" form of the inventory page: the form record and its error record,
 * the field setter that clears a field's error as the field changes, the validation run
 * on submit, and what the store answers to the posted ingredient.
 */
module Inventory {
  import opened Wrappers
  import opened Models
  import opened Text
  import opened IngredientStore

  /**
   * The amount input as the form record holds it: never typed (the key is absent), typed
   * and cleared (the empty string), or a number.
   */
  datatype AmountField = Unset | Blank | Entered(value: int)

  /** The form record: the name (absent until typed) and the amount. */
  datatype NewIngredientForm = NewIngredientForm(name: Option<string>, amount: AmountField)

  /** The error record: a message per field, absent (or cleared to null) when the field is fine. */
  datatype FormErrors = FormErrors(name: Option<string>, amount: Option<string>)

  /** The component's form state: the record being typed and the errors on display. */
  datatype FormState = FormState(form: NewIngredientForm, errors: FormErrors)

  /** An input event on one of the two fields. */
  datatype Edit = SetName(name: string) | SetAmount(amount: AmountField)

  /** An error record with no message stops nothing. */
  predicate NoErrors(e: FormErrors) {
    e.name.None? && e.amount.None?
  }

  /**
   * The form check. A name that is absent or whitespace only gets "Please enter a name".
   * An absent or empty amount gets "Please enter an amount"; otherwise a non-positive one
   * gets "Amount must be greater than 0"; at most one amount message. Each field's message
   * depends on that field alone.
   */
  function FindFormErrors(form: NewIngredientForm): (e: FormErrors)
    ensures e.name.Some? <==> form.name.None? || IsBlank(form.name.value)
    ensures e.name.Some? ==> e.name.value == "Please enter a name"
    ensures e.amount == Some("Please enter an amount") <==> form.amount.Unset? || form.amount.Blank?
    ensures e.amount == Some("Amount must be greater than 0") <==> form.amount.Entered? && form.amount.value <= 0
    ensures e.amount.None? <==> form.amount.Entered? && form.amount.value > 0
  {
    var nameError :=
      match form.name
      case None => Some("Please enter a name")
      case Some(s) => (TrimEmptyIffBlank(s); if Trim(s) == "" then Some("Please enter a name") else None);
    var amountError :=
      match form.amount
      case Unset => Some("Please enter an amount")
      case Blank => Some("Please enter an amount")
      case Entered(v) => if v <= 0 then Some("Amount must be greater than 0") else None;
    FormErrors(nameError, amountError)
  }

  /** An input event: the field takes the new value and its error, if any, is cleared; the other field and its error stay. */
  function SetField(st: FormState, edit: Edit): (r: FormState)
    ensures edit.SetName? ==> r.form.name == Some(edit.name) && r.form.amount == st.form.amount
    ensures edit.SetAmount? ==> r.form.amount == edit.amount && r.form.name == st.form.name
    ensures edit.SetName? ==> r.errors.name.None? && r.errors.amount == st.errors.amount
    ensures edit.SetAmount? ==> r.errors.amount.None? && r.errors.name == st.errors.name
  {
    match edit
    case SetName(n) =>
      FormState(st.form.(name := Some(n)), if st.errors.name.Some? then st.errors.(name := None) else st.errors)
    case SetAmount(a) =>
      FormState(st.form.(amount := a), if st.errors.amount.Some? then st.errors.(amount := None) else st.errors)
  }

  /** What "Add Ingredient" does before the store answers. */
  datatype SubmitOutcome = Rejected(errors: FormErrors) | PostIngredient(name: string, amount: int)

  /** Any message stops the submission and nothing is posted; otherwise the name as typed (untrimmed) and the amount are posted. */
  function HandleSubmit(form: NewIngredientForm): (r: SubmitOutcome)
    ensures r.Rejected? <==> !NoErrors(FindFormErrors(form))
    ensures r.Rejected? ==> r.errors == FindFormErrors(form)
    ensures r.PostIngredient? ==> form.name == Some(r.name) && !IsBlank(r.name) && form.amount == Entered(r.amount) && r.amount > 0
  {
    var errors := FindFormErrors(form);
    if !NoErrors(errors) then Rejected(errors) else PostIngredient(form.name.value, form.amount.value)
  }

  /** The whole round: the form's outcome, then the store's answer to the post. */
  datatype AddOutcome = FormInvalid(errors: FormErrors) | IngredientExistsAlert | Added(ingredient: Ingredient)

  /** Submitting the form against a store holding `items` whose next key is `nextId`. */
  function AddToStore(items: seq<Ingredient>, nextId: int, form: NewIngredientForm): AddOutcome {
    match HandleSubmit(form)
    case Rejected(errors) => FormInvalid(errors)
    case PostIngredient(name, amount) =>
      match CreateResult(items, nextId, name, amount)
      case Failure(_) => IngredientExistsAlert
      case Success(g) => Added(g)
  }

  /**
   * Clearing an error on input hides nothing: whatever errors are on display, a field
   * whose new value is invalid is reported again on submit, and the submission is refused.
   */
  lemma ClearedErrorIsRecheckedOnSubmit(st: FormState, edit: Edit)
    ensures var r := SetField(st, edit);
      && (edit.SetName? && IsBlank(edit.name) ==> HandleSubmit(r.form) == Rejected(FindFormErrors(r.form)) && FindFormErrors(r.form).name.Some?)
      && (edit.SetAmount? && !(edit.amount.Entered? && edit.amount.value > 0) ==>
            HandleSubmit(r.form).Rejected? && FindFormErrors(r.form).amount.Some?)
  {
    var r := SetField(st, edit);
    assert r.form.name.Some? ==> r.form.name.value == (if edit.SetName? then edit.name else st.form.name.value);
  }

  /** The two fields are independent: typing into them in either order gives the same state. */
  lemma EditsCommute(st: FormState, n: string, a: AmountField)
    ensures SetField(SetField(st, SetName(n)), SetAmount(a)) == SetField(SetField(st, SetAmount(a)), SetName(n))
  {
    var x := SetField(SetField(st, SetName(n)), SetAmount(a));
    var y := SetField(SetField(st, SetAmount(a)), SetName(n));
    assert x.form == y.form;
    assert x.errors == y.errors;
  }

  /**
   * An added ingredient carries a non-blank name and a positive amount under the fresh
   * key, and no stored ingredient had exactly that name; the alert answers a name taken
   * exactly (the comparison on the store's side is exact, the form's check trims).
   */
  lemma AddOutcomes(items: seq<Ingredient>, nextId: int, form: NewIngredientForm)
    ensures var out := AddToStore(items, nextId, form);
      && (out.FormInvalid? <==> !NoErrors(FindFormErrors(form)))
      && (out.IngredientExistsAlert? <==> NoErrors(FindFormErrors(form)) && exists k :: 0 <= k < |items| && items[k].name == form.name.value)
      && (out.Added? ==> out.ingredient.id == nextId && Some(out.ingredient.name) == form.name && !IsBlank(out.ingredient.name)
                         && out.ingredient.amount > 0 && forall g :: g in items ==> g.name != out.ingredient.name)
  {
    var out := AddToStore(items, nextId, form);
    if out.Added? {
      forall g | g in items ensures g.name != out.ingredient.name {
        var k :| 0 <= k < |items| && items[k] == g;
      }
    }
  }

  /** A leading space is trimmed away: " Milk" and "Milk" trim alike. */
  lemma PaddedNameTrimsToOriginal()
    ensures Trim(" Milk") == Trim("Milk") == "Milk"
  {
    assert TrimStart("Milk") == "Milk" by { assert !IsSpace("Milk"[0]); }
    assert TrimStart(" Milk") == "Milk" by { assert IsSpace(" Milk"[0]) && " Milk"[1..] == "Milk"; }
    assert TrimEnd("Milk") == "Milk" by { assert !IsSpace("Milk"[3]); }
  }

  /** " Milk" with a positive amount passes the form and is posted as typed. */
  lemma PaddedNameIsPosted()
    ensures HandleSubmit(NewIngredientForm(Some(" Milk"), Entered(5))) == PostIngredient(" Milk", 5)
  {
    assert !IsBlank(" Milk") by { assert !IsSpace(" Milk"[1]); }
  }

  /** The store compares names exactly, so " Milk" is not "Milk" and gets the fresh key. */
  lemma PaddedNameIsNew()
    ensures CreateResult([Ingredient(1, "Milk", 10)], 2, " Milk", 5) == Success(Ingredient(2, " Milk", 5))
  {
    assert " Milk" != "Milk" by { assert |" Milk"| != |"Milk"|; }
  }

  /**
   * The form trims only to validate and posts the name as typed, and the store compares
   * names exactly: " Milk" is added beside "Milk".
   */
  lemma PaddedNameIsAddedBesideOriginal()
    ensures AddToStore([Ingredient(1, "Milk", 10)], 2, NewIngredientForm(Some(" Milk"), Entered(5))) == Added(Ingredient(2, " Milk", 5))
    ensures Trim(" Milk") == Trim("Milk")
  {
    PaddedNameTrimsToOriginal();
    PaddedNameIsPosted();
    PaddedNameIsNew();
  }
}
