/**
 * The "Edit Ingredient" page: the form record loaded from the store, the change handler
 * that converts the amount input and clears a field's error, the validation run on
 * submit, and the PUT that replaces the ingredient's name and amount.
 */
module EditIngredient {
  import opened Wrappers
  import opened Models
  import opened Text
  import opened IngredientStore

  /** The amount in the form record: the empty string, null, or a number. */
  datatype AmountValue = Empty | Null | Number(n: int)

  /** The form record: the name (null when the record carries none) and the amount. */
  datatype EditForm = EditForm(name: Option<string>, amount: AmountValue)

  /** The error record: a message per field and a general message for a failed request. */
  datatype FormErrors = FormErrors(name: Option<string>, amount: Option<string>, general: Option<string>)

  /** The page's state: the form record and the errors on display. */
  datatype EditState = EditState(form: EditForm, errors: FormErrors)

  /**
   * An input event: a name as typed, or the amount input after `parseFloat`
   * (None when the text does not parse as a number).
   */
  datatype Edit = NameInput(name: string) | AmountInput(parsed: Option<int>)

  /** The form before the ingredient is loaded: empty name, empty amount, no errors. */
  function InitialState(): (st: EditState)
    ensures st.form == EditForm(Some(""), Empty) && NoErrors(st.errors) && st.errors.general.None?
  {
    EditState(EditForm(Some(""), Empty), FormErrors(None, None, None))
  }

  /** The form once the stored ingredient is loaded into it. */
  function Loaded(st: EditState, g: Ingredient): (r: EditState)
    ensures r.form == EditForm(Some(g.name), Number(g.amount)) && r.errors == st.errors
  {
    EditState(EditForm(Some(g.name), Number(g.amount)), st.errors)
  }

  /** No field message. */
  predicate NoErrors(e: FormErrors) {
    e.name.None? && e.amount.None?
  }

  /**
   * The amount conversion `parseFloat(text) || ""`: text that does not parse, and zero,
   * are both falsy and become the empty string; any other number is kept, negative ones included.
   */
  function ConvertAmount(parsed: Option<int>): (r: AmountValue)
    ensures r == Empty <==> parsed.None? || parsed.value == 0
    ensures r.Number? <==> parsed.Some? && parsed.value != 0
    ensures r.Number? ==> r.n == parsed.value
    ensures !r.Null?
  {
    match parsed
    case None => Empty
    case Some(v) => if v == 0 then Empty else Number(v)
  }

  /**
   * The check on submit. A name that is null or whitespace only gets "Name is required".
   * An empty or null amount gets "Amount is required"; otherwise a non-positive one gets
   * "Amount must be greater than 0". Each field's message depends on that field alone.
   */
  function ValidateForm(form: EditForm): (e: FormErrors)
    ensures e.name.Some? <==> form.name.None? || IsBlank(form.name.value)
    ensures e.name.Some? ==> e.name.value == "Name is required"
    ensures e.amount == Some("Amount is required") <==> form.amount.Empty? || form.amount.Null?
    ensures e.amount == Some("Amount must be greater than 0") <==> form.amount.Number? && form.amount.n <= 0
    ensures e.amount.None? <==> form.amount.Number? && form.amount.n > 0
    ensures e.general.None?
  {
    var nameError :=
      match form.name
      case None => Some("Name is required")
      case Some(s) => (TrimEmptyIffBlank(s); if Trim(s) == "" then Some("Name is required") else None);
    var amountError :=
      match form.amount
      case Empty => Some("Amount is required")
      case Null => Some("Amount is required")
      case Number(n) => if n <= 0 then Some("Amount must be greater than 0") else None;
    FormErrors(nameError, amountError, None)
  }

  /** An input event: the field takes its (converted) value and its error, if any, is cleared; the rest stays. */
  function HandleChange(st: EditState, edit: Edit): (r: EditState)
    ensures edit.NameInput? ==> r.form == st.form.(name := Some(edit.name)) && r.errors == st.errors.(name := None)
    ensures edit.AmountInput? ==> r.form == st.form.(amount := ConvertAmount(edit.parsed)) && r.errors == st.errors.(amount := None)
  {
    match edit
    case NameInput(s) =>
      EditState(st.form.(name := Some(s)), if st.errors.name.Some? then st.errors.(name := None) else st.errors)
    case AmountInput(p) =>
      EditState(st.form.(amount := ConvertAmount(p)), if st.errors.amount.Some? then st.errors.(amount := None) else st.errors)
  }

  /** What "Update Ingredient" does before the store answers. */
  datatype SubmitOutcome = Rejected(errors: FormErrors) | PutIngredient(id: int, name: string, amount: int)

  /** Any field message stops the submission and nothing is sent; otherwise the form's name and amount are sent for the page's key. */
  function HandleSubmit(id: int, form: EditForm): (r: SubmitOutcome)
    ensures r.Rejected? <==> !NoErrors(ValidateForm(form))
    ensures r.Rejected? ==> r.errors == ValidateForm(form)
    ensures r.PutIngredient? ==> r.id == id && form == EditForm(Some(r.name), Number(r.amount)) && !IsBlank(r.name) && r.amount > 0
  {
    var errors := ValidateForm(form);
    if !NoErrors(errors) then Rejected(errors) else PutIngredient(id, form.name.value, form.amount.n)
  }

  /** The whole round against a store holding `items`. */
  datatype EditOutcome = FormInvalid(errors: FormErrors) | UpdateFailed(message: string) | Updated(items: seq<Ingredient>)

  /** Submitting the edit: a rejected form, the store's not-found answer shown as a general error, or the new table. */
  function SubmitToStore(items: seq<Ingredient>, id: int, form: EditForm): EditOutcome {
    match HandleSubmit(id, form)
    case Rejected(errors) => FormInvalid(errors)
    case PutIngredient(key, name, amount) =>
      match UpdateSpec(items, key, name, amount)
      case Failure(_) => UpdateFailed("Failed to update ingredient")
      case Success(after) => Updated(after)
  }

  /** Zero, and text that does not parse, are reported as missing rather than as non-positive, and block the update. */
  lemma ZeroAmountReportsRequired(st: EditState, parsed: Option<int>)
    requires parsed.None? || parsed.value == 0
    ensures var r := HandleChange(st, AmountInput(parsed));
      && ValidateForm(r.form).amount == Some("Amount is required")
      && HandleSubmit(0, r.form).Rejected?
  {
    assert HandleChange(st, AmountInput(parsed)).form.amount == Empty;
  }

  /** A negative amount typed in is kept and reported as non-positive. */
  lemma NegativeAmountReportsNonPositive(st: EditState, v: int)
    requires v < 0
    ensures ValidateForm(HandleChange(st, AmountInput(Some(v))).form).amount == Some("Amount must be greater than 0")
  {
    assert HandleChange(st, AmountInput(Some(v))).form.amount == Number(v);
  }

  /** A freshly loaded ingredient with a non-blank name and a positive amount submits unchanged. */
  lemma LoadedIngredientResubmits(st: EditState, g: Ingredient)
    requires !IsBlank(g.name) && g.amount > 0
    ensures HandleSubmit(g.id, Loaded(st, g).form) == PutIngredient(g.id, g.name, g.amount)
  {
    assert ValidateForm(Loaded(st, g).form).name.None?;
  }

  /**
   * An accepted edit of a stored key replaces that ingredient's name and amount and
   * nothing else; an edit of a key no longer stored fails with the general message.
   */
  lemma SubmitChangesOnlyTarget(items: seq<Ingredient>, id: int, form: EditForm)
    requires UniqueIds(items)
    ensures var out := SubmitToStore(items, id, form);
      && (out.FormInvalid? <==> !NoErrors(ValidateForm(form)))
      && (out.UpdateFailed? <==> NoErrors(ValidateForm(form)) && forall k :: 0 <= k < |items| ==> items[k].id != id)
      && (out.Updated? ==>
            && |out.items| == |items|
            && UniqueIds(out.items)
            && forall k :: 0 <= k < |items| ==>
                 out.items[k] == (if items[k].id == id then Ingredient(id, form.name.value, form.amount.n) else items[k]))
  {
    var out := SubmitToStore(items, id, form);
    if out.Updated? {
      UpdateChangesOnlyTarget(items, id, form.name.value, form.amount.n);
    }
  }
}
