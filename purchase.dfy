/**
 * The purchase page of the storefront: pricing a selection of recipes against the
 * ingredient stock, validating the payment, and planning the stock deduction.
 * Both handlers work on the same in-memory snapshot `stock` of the inventory that
 * the page loaded; the HTTP writes that follow the plan are not part of this module.
 */
module PurchaseRecipe {
  import opened Wrappers
  import opened Models
  import opened Text

  /**
   * One row of the purchase table: the catalogue recipe, its checkbox and the count
   * typed beside it. A blank count behaves as 0 (JavaScript's `"" <= 0` holds).
   */
  datatype CatalogRow = CatalogRow(select: bool, recipe: Recipe, count: int)

  /** What "Generate Cost" ends in: one of the three alerts, or the payment dialog with a price. */
  datatype PriceOutcome =
    | NoRecipesSelected
    | InvalidRecipeCount
    | InsufficientInventory
    | Priced(purchase: seq<CatalogRow>, finalPrice: int)

  /** The error the payment field shows. */
  datatype PaymentError =
    | MissingPayment
    | NonPositivePayment
    | BelowFinalPrice(finalPrice: int)
  {
    /** The text under the payment field; a below-price message names the final price in decimal. */
    function Message(): (m: string)
      ensures this.MissingPayment? ==> m == "Please enter a price"
      ensures this.NonPositivePayment? ==> m == "Price must be greater than 0"
      ensures this.BelowFinalPrice? && this.finalPrice >= 0 ==>
        |m| > 27 && m[..27] == "Price must be greater than " && DecValue(m[27..]) == this.finalPrice
      ensures this.BelowFinalPrice? && this.finalPrice >= 0 ==> m == "Price must be greater than " + NatToString(this.finalPrice)
      ensures this.BelowFinalPrice? && this.finalPrice < 0 ==> m == "Price must be greater than -" + NatToString(-this.finalPrice)
    {
      match this
      case MissingPayment => "Please enter a price"
      case NonPositivePayment => "Price must be greater than 0"
      case BelowFinalPrice(f) => "Price must be greater than " + IntToString(f)
    }
  }

  /** One planned `PUT /ingredient/{id}` body: the ingredient's key, the requirement's name, the new amount. */
  datatype IngredientUpdate = IngredientUpdate(id: int, name: string, amount: int)

  /** What "Place Order" ends in before any write is issued. */
  datatype PayOutcome =
    | PaymentRejected(error: PaymentError)
    | NothingToPurchase
    | StockWouldGoNegative
    | Paid(updates: seq<IngredientUpdate>, change: int)

  // ---------------------------------------------------------------- selection and price

  /** Some row is ticked. */
  predicate AnySelected(rows: seq<CatalogRow>) {
    exists i :: 0 <= i < |rows| && rows[i].select
  }

  /** Every ticked row has a positive count. */
  predicate CountsValid(rows: seq<CatalogRow>) {
    forall i :: 0 <= i < |rows| && rows[i].select ==> rows[i].count > 0
  }

  /** The ticked rows, in catalogue order. */
  function SelectedRows(rows: seq<CatalogRow>): (r: seq<CatalogRow>)
    ensures forall x :: x in r ==> x in rows && x.select
    ensures forall i :: 0 <= i < |rows| && rows[i].select ==> rows[i] in r
  {
    if rows == [] then []
    else SelectedRows(rows[..|rows| - 1]) + (if rows[|rows| - 1].select then [rows[|rows| - 1]] else [])
  }

  /** The ticked rows with a positive count, in catalogue order: what the first loop pushes. */
  function Purchasable(rows: seq<CatalogRow>): seq<CatalogRow> {
    if rows == [] then []
    else
      var last := rows[|rows| - 1];
      Purchasable(rows[..|rows| - 1]) + (if last.select && last.count > 0 then [last] else [])
  }

  /** The sum of count times price over the lines. */
  function Total(lines: seq<CatalogRow>): int {
    if lines == [] then 0
    else Total(lines[..|lines| - 1]) + lines[|lines| - 1].count * lines[|lines| - 1].recipe.price
  }

  /** When every ticked row has a positive count, the pushed rows are exactly the ticked rows. */
  lemma {:induction false} PurchasableIsSelection(rows: seq<CatalogRow>)
    requires CountsValid(rows)
    ensures Purchasable(rows) == SelectedRows(rows)
  {
    if rows != [] {
      var init := rows[..|rows| - 1];
      assert CountsValid(init) by {
        forall i | 0 <= i < |init| && init[i].select ensures init[i].count > 0 {
          assert init[i] == rows[i];
        }
      }
      PurchasableIsSelection(init);
    }
  }

  /** The price is additive over concatenated purchases. */
  lemma {:induction false} TotalAppend(a: seq<CatalogRow>, b: seq<CatalogRow>)
    ensures Total(a + b) == Total(a) + Total(b)
  {
    if b == [] {
      assert a + b == a;
    } else {
      var b' := b[..|b| - 1];
      assert (a + b)[..|a + b| - 1] == a + b';
      assert (a + b)[|a + b| - 1] == b[|b| - 1];
      TotalAppend(a, b');
    }
  }

  /** With positive counts and prices, a non-empty purchase has a positive price. */
  lemma {:induction false} TotalPositive(lines: seq<CatalogRow>)
    requires lines != []
    requires forall x :: x in lines ==> x.count > 0 && x.recipe.price > 0
    ensures Total(lines) > 0
  {
    var init := lines[..|lines| - 1];
    var last := lines[|lines| - 1];
    assert last in lines;
    assert last.count * last.recipe.price > 0;
    if init != [] {
      assert forall x :: x in init ==> x in lines;
      TotalPositive(init);
    }
  }

  // ---------------------------------------------------------------- stock gate

  /** `ingredients.find(i => i.name === name)`: the position of the first stock entry with that name. */
  function FindByName(stock: seq<Ingredient>, name: string): (r: Option<nat>)
    ensures r.Some? ==> r.value < |stock| && stock[r.value].name == name
    ensures r.Some? ==> forall j :: 0 <= j < r.value ==> stock[j].name != name
    ensures r.None? <==> forall k :: 0 <= k < |stock| ==> stock[k].name != name
  {
    if |stock| == 0 then None
    else if stock[0].name == name then Some(0)
    else match FindByName(stock[1..], name)
      case None => None
      case Some(k) => Some(k + 1)
  }

  /** A requirement whose name matches a stock entry that holds less than requirement times count. */
  predicate ReqShort(stock: seq<Ingredient>, req: RecipeIngredient, count: int) {
    var m := FindByName(stock, req.name);
    m.Some? && stock[m.value].amount < req.amount * count
  }

  /** Some requirement of this line is short; requirements with no name match are skipped. */
  predicate LineShort(stock: seq<Ingredient>, line: CatalogRow) {
    exists j :: 0 <= j < |line.recipe.recipeIngredients| && ReqShort(stock, line.recipe.recipeIngredients[j], line.count)
  }

  /** No line is short. Each line is compared with the stock on its own: needs are not summed across lines. */
  predicate StockSufficient(stock: seq<Ingredient>, lines: seq<CatalogRow>) {
    forall i :: 0 <= i < |lines| ==> !LineShort(stock, lines[i])
  }

  /** The reference outcome of "Generate Cost". */
  function PriceSpec(rows: seq<CatalogRow>, stock: seq<Ingredient>): PriceOutcome {
    if !AnySelected(rows) then NoRecipesSelected
    else if !CountsValid(rows) then InvalidRecipeCount
    else if !StockSufficient(stock, Purchasable(rows)) then InsufficientInventory
    else Priced(Purchasable(rows), Total(Purchasable(rows)))
  }

  /** The flags and the pushed rows grow one row at a time. */
  lemma ScanStep(rows: seq<CatalogRow>, i: int)
    requires 0 <= i < |rows|
    ensures AnySelected(rows[..i + 1]) == (AnySelected(rows[..i]) || rows[i].select)
    ensures CountsValid(rows[..i + 1]) == (CountsValid(rows[..i]) && (rows[i].select ==> rows[i].count > 0))
    ensures Purchasable(rows[..i + 1]) == Purchasable(rows[..i]) + (if rows[i].select && rows[i].count > 0 then [rows[i]] else [])
  {
    assert rows[..i + 1][..i] == rows[..i];
    assert rows[..i + 1][i] == rows[i];
  }

  /**
   * The first loop of `onSubmitGeneratePrice`: sets the "at least one selected" and
   * "counts valid" flags, pushes the ticked rows with a positive count and accumulates
   * count times price.
   */
  method ScanSelection(rows: seq<CatalogRow>) returns (anySelected: bool, countsValid: bool, selected: seq<CatalogRow>, total: int)
    ensures anySelected == AnySelected(rows) && countsValid == CountsValid(rows)
    ensures selected == Purchasable(rows) && total == Total(selected)
  {
    anySelected, countsValid, selected, total := false, true, [], 0;
    for i := 0 to |rows|
      invariant anySelected == AnySelected(rows[..i])
      invariant countsValid == CountsValid(rows[..i])
      invariant selected == Purchasable(rows[..i])
      invariant total == Total(selected)
    {
      var recipe := rows[i];
      ScanStep(rows, i);
      if recipe.select {
        anySelected := true;
        if recipe.count <= 0 {
          countsValid := false;
        } else {
          TotalAppend(selected, [recipe]);
          selected := selected + [recipe];
          total := total + recipe.count * recipe.recipe.price;
        }
      }
    }
    assert rows[..|rows|] == rows;
  }

  /**
   * The stock gate of `onSubmitGeneratePrice`: for each collected recipe and each of its
   * requirements, finds the stock entry by name and stops at the first one holding less
   * than requirement times count.
   */
  method CheckStock(lines: seq<CatalogRow>, stock: seq<Ingredient>) returns (hasEnoughIngredients: bool)
    ensures hasEnoughIngredients == StockSufficient(stock, lines)
  {
    hasEnoughIngredients := true;
    for r := 0 to |lines|
      invariant hasEnoughIngredients
      invariant forall i :: 0 <= i < r ==> !LineShort(stock, lines[i])
    {
      var recipe := lines[r];
      var reqs := recipe.recipe.recipeIngredients;
      for j := 0 to |reqs|
        invariant hasEnoughIngredients
        invariant forall jj :: 0 <= jj < j ==> !ReqShort(stock, reqs[jj], recipe.count)
      {
        var matchingIngredient := FindByName(stock, reqs[j].name);
        if matchingIngredient.Some? && stock[matchingIngredient.value].amount < reqs[j].amount * recipe.count {
          assert ReqShort(stock, reqs[j], recipe.count);
          hasEnoughIngredients := false;
          break;
        }
      }
      if !hasEnoughIngredients {
        assert LineShort(stock, recipe);
        break;
      }
    }
  }

  /**
   * `onSubmitGeneratePrice`: no ticked row stops with the no-selection alert before the
   * count alert; any ticked row with a count not above 0 fails the whole request; then the
   * stock gate; on success the purchase is the ticked rows and the price their total.
   */
  method GeneratePrice(rows: seq<CatalogRow>, stock: seq<Ingredient>) returns (out: PriceOutcome)
    ensures out == PriceSpec(rows, stock)
    ensures !AnySelected(rows) ==> out == NoRecipesSelected
    ensures out == InvalidRecipeCount <==> AnySelected(rows) && exists i :: 0 <= i < |rows| && rows[i].select && rows[i].count <= 0
    ensures out == InsufficientInventory <==> AnySelected(rows) && CountsValid(rows) && !StockSufficient(stock, SelectedRows(rows))
    ensures out.Priced? ==> && out.purchase == SelectedRows(rows)
                            && (forall x :: x in out.purchase ==> x.count > 0)
                            && out.finalPrice == Total(out.purchase)
                            && StockSufficient(stock, out.purchase)
  {
    var isAtLeastOneRecipeSelected, isRecipeCountValid, selectedRecipes, tempTotal := ScanSelection(rows);
    if !isAtLeastOneRecipeSelected {
      return NoRecipesSelected;
    }
    if !isRecipeCountValid {
      return InvalidRecipeCount;
    }
    PurchasableIsSelection(rows);
    var hasEnoughIngredients := CheckStock(selectedRecipes, stock);
    if !hasEnoughIngredients {
      return InsufficientInventory;
    }
    return Priced(selectedRecipes, tempTotal);
  }

  // ---------------------------------------------------------------- payment

  /**
   * `findFormErrors` of the payment dialog, in its order: a blank payment, then a
   * payment not above 0, then a payment below the final price.
   */
  function PaymentErrorOf(payment: Option<int>, finalPrice: int): (r: Option<PaymentError>)
    ensures r == Some(MissingPayment) <==> payment.None?
    ensures r == Some(NonPositivePayment) <==> payment.Some? && payment.value <= 0
    ensures r == Some(BelowFinalPrice(finalPrice)) <==> payment.Some? && 0 < payment.value < finalPrice
    ensures r.None? <==> payment.Some? && payment.value > 0 && payment.value >= finalPrice
  {
    if payment.None? then Some(MissingPayment)
    else if payment.value <= 0 then Some(NonPositivePayment)
    else if payment.value < finalPrice then Some(BelowFinalPrice(finalPrice))
    else None
  }

  /** The update one requirement contributes: the matched entry's key and its snapshot amount minus the need. */
  function ReqUpdate(stock: seq<Ingredient>, req: RecipeIngredient, count: int): Option<IngredientUpdate> {
    match FindByName(stock, req.name)
    case None => None
    case Some(k) => Some(IngredientUpdate(stock[k].id, req.name, stock[k].amount - req.amount * count))
  }

  /** No update, or the one update. */
  function UpdateList(m: Option<IngredientUpdate>): seq<IngredientUpdate> {
    match m
    case None => []
    case Some(u) => [u]
  }

  /** The updates of one recipe's requirements, in requirement order. */
  function ReqsPlan(stock: seq<Ingredient>, reqs: seq<RecipeIngredient>, count: int): seq<IngredientUpdate> {
    if reqs == [] then []
    else ReqsPlan(stock, reqs[..|reqs| - 1], count) + UpdateList(ReqUpdate(stock, reqs[|reqs| - 1], count))
  }

  /** The deduction plan: every line's updates, in purchase order, each computed from the snapshot. */
  function Plan(stock: seq<Ingredient>, lines: seq<CatalogRow>): seq<IngredientUpdate> {
    if lines == [] then []
    else
      var last := lines[|lines| - 1];
      Plan(stock, lines[..|lines| - 1]) + ReqsPlan(stock, last.recipe.recipeIngredients, last.count)
  }

  /** Some planned amount is below zero. */
  predicate HasNegative(plan: seq<IngredientUpdate>) {
    exists u :: u in plan && u.amount < 0
  }

  /** The reference outcome of "Place Order". */
  function PaySpec(payment: Option<int>, finalPrice: int, purchase: seq<CatalogRow>, stock: seq<Ingredient>): PayOutcome {
    match PaymentErrorOf(payment, finalPrice)
    case Some(e) => PaymentRejected(e)
    case None =>
      if |purchase| == 0 then NothingToPurchase
      else if HasNegative(Plan(stock, purchase)) then StockWouldGoNegative
      else Paid(Plan(stock, purchase), payment.value - finalPrice)
  }

  /** Each requirement's update, when it has one, is in its recipe's plan. */
  lemma {:induction false} ReqsPlanHas(stock: seq<Ingredient>, reqs: seq<RecipeIngredient>, count: int, j: int)
    requires 0 <= j < |reqs| && ReqUpdate(stock, reqs[j], count).Some?
    ensures ReqUpdate(stock, reqs[j], count).value in ReqsPlan(stock, reqs, count)
  {
    var init := reqs[..|reqs| - 1];
    if j < |init| {
      assert init[j] == reqs[j];
      ReqsPlanHas(stock, init, count, j);
    }
  }

  /** Every update in a recipe's plan comes from one of its requirements. */
  lemma {:induction false} ReqsPlanSource(stock: seq<Ingredient>, reqs: seq<RecipeIngredient>, count: int, u: IngredientUpdate)
    requires u in ReqsPlan(stock, reqs, count)
    ensures exists j :: 0 <= j < |reqs| && ReqUpdate(stock, reqs[j], count) == Some(u)
  {
    var init := reqs[..|reqs| - 1];
    if u in ReqsPlan(stock, init, count) {
      ReqsPlanSource(stock, init, count, u);
      var j :| 0 <= j < |init| && ReqUpdate(stock, init[j], count) == Some(u);
      assert init[j] == reqs[j];
    } else {
      assert ReqUpdate(stock, reqs[|reqs| - 1], count) == Some(u);
    }
  }

  /** An update is in a recipe's plan exactly when some requirement of it has a name match producing it. */
  lemma ReqsPlanMembers(stock: seq<Ingredient>, reqs: seq<RecipeIngredient>, count: int, u: IngredientUpdate)
    ensures u in ReqsPlan(stock, reqs, count) <==> exists j :: 0 <= j < |reqs| && ReqUpdate(stock, reqs[j], count) == Some(u)
  {
    if u in ReqsPlan(stock, reqs, count) {
      ReqsPlanSource(stock, reqs, count, u);
    }
    if exists j :: 0 <= j < |reqs| && ReqUpdate(stock, reqs[j], count) == Some(u) {
      var j :| 0 <= j < |reqs| && ReqUpdate(stock, reqs[j], count) == Some(u);
      ReqsPlanHas(stock, reqs, count, j);
    }
  }

  /** Each (purchased recipe, requirement) pair with a name match has its update in the plan. */
  lemma {:induction false} PlanHas(stock: seq<Ingredient>, lines: seq<CatalogRow>, i: int, j: int)
    requires 0 <= i < |lines| && 0 <= j < |lines[i].recipe.recipeIngredients|
    requires ReqUpdate(stock, lines[i].recipe.recipeIngredients[j], lines[i].count).Some?
    ensures ReqUpdate(stock, lines[i].recipe.recipeIngredients[j], lines[i].count).value in Plan(stock, lines)
  {
    var init := lines[..|lines| - 1];
    if i < |init| {
      assert init[i] == lines[i];
      PlanHas(stock, init, i, j);
    } else {
      ReqsPlanHas(stock, lines[i].recipe.recipeIngredients, lines[i].count, j);
    }
  }

  /** Every update in the plan comes from some (purchased recipe, requirement) pair. */
  lemma {:induction false} PlanSource(stock: seq<Ingredient>, lines: seq<CatalogRow>, u: IngredientUpdate)
    requires u in Plan(stock, lines)
    ensures exists i, j :: (0 <= i < |lines| && 0 <= j < |lines[i].recipe.recipeIngredients|
                            && ReqUpdate(stock, lines[i].recipe.recipeIngredients[j], lines[i].count) == Some(u))
  {
    var init := lines[..|lines| - 1];
    var last := lines[|lines| - 1];
    if u in Plan(stock, init) {
      PlanSource(stock, init, u);
      var i, j :| 0 <= i < |init| && 0 <= j < |init[i].recipe.recipeIngredients|
        && ReqUpdate(stock, init[i].recipe.recipeIngredients[j], init[i].count) == Some(u);
      assert init[i] == lines[i];
    } else {
      ReqsPlanSource(stock, last.recipe.recipeIngredients, last.count, u);
      var j :| 0 <= j < |last.recipe.recipeIngredients| && ReqUpdate(stock, last.recipe.recipeIngredients[j], last.count) == Some(u);
      assert lines[|lines| - 1] == last;
    }
  }

  /**
   * The plan holds one update per (purchased recipe, requirement) pair whose name matches
   * a stock entry, and nothing else: unmatched names produce no update.
   */
  lemma PlanMembers(stock: seq<Ingredient>, lines: seq<CatalogRow>, u: IngredientUpdate)
    ensures u in Plan(stock, lines) <==>
      exists i, j :: 0 <= i < |lines| && 0 <= j < |lines[i].recipe.recipeIngredients|
        && ReqUpdate(stock, lines[i].recipe.recipeIngredients[j], lines[i].count) == Some(u)
  {
    if u in Plan(stock, lines) {
      PlanSource(stock, lines, u);
    }
    if (exists i, j :: 0 <= i < |lines| && 0 <= j < |lines[i].recipe.recipeIngredients|
          && ReqUpdate(stock, lines[i].recipe.recipeIngredients[j], lines[i].count) == Some(u)) {
      var i, j :| 0 <= i < |lines| && 0 <= j < |lines[i].recipe.recipeIngredients|
        && ReqUpdate(stock, lines[i].recipe.recipeIngredients[j], lines[i].count) == Some(u);
      PlanHas(stock, lines, i, j);
    }
  }

  /** A requirement of a purchased recipe, paired with the number of that recipe bought. */
  datatype PlannedReq = PlannedReq(req: RecipeIngredient, count: int)

  /**
   * The requirements of one recipe whose names match a stock entry, in requirement order;
   * each carries the recipe's count. Repeated requirements stay repeated.
   */
  function MatchedReqs(stock: seq<Ingredient>, reqs: seq<RecipeIngredient>, count: int): (r: seq<PlannedReq>)
    ensures |r| <= |reqs|
    ensures forall t :: 0 <= t < |r| ==> r[t].count == count && r[t].req in reqs && FindByName(stock, r[t].req.name).Some?
  {
    if reqs == [] then []
    else
      var last := reqs[|reqs| - 1];
      MatchedReqs(stock, reqs[..|reqs| - 1], count) + (if FindByName(stock, last.name).Some? then [PlannedReq(last, count)] else [])
  }

  /** The matched requirements of the whole purchase: line by line, then requirement by requirement. */
  function MatchedPairs(stock: seq<Ingredient>, lines: seq<CatalogRow>): seq<PlannedReq> {
    if lines == [] then []
    else
      var last := lines[|lines| - 1];
      MatchedPairs(stock, lines[..|lines| - 1]) + MatchedReqs(stock, last.recipe.recipeIngredients, last.count)
  }

  /** A recipe's plan, position by position: the t-th update is the t-th matched requirement's. */
  lemma {:induction false} ReqsPlanPositions(stock: seq<Ingredient>, reqs: seq<RecipeIngredient>, count: int)
    ensures |ReqsPlan(stock, reqs, count)| == |MatchedReqs(stock, reqs, count)|
    ensures forall t :: 0 <= t < |MatchedReqs(stock, reqs, count)| ==>
      ReqUpdate(stock, MatchedReqs(stock, reqs, count)[t].req, count) == Some(ReqsPlan(stock, reqs, count)[t])
  {
    if reqs != [] {
      var init := reqs[..|reqs| - 1];
      ReqsPlanPositions(stock, init, count);
    }
  }

  /**
   * The plan, position by position: one update per matched (purchased recipe, requirement)
   * pair, in purchase order, so a shared or repeated requirement yields as many updates as
   * it has pairs, equal ones included.
   */
  lemma {:induction false} PlanPositions(stock: seq<Ingredient>, lines: seq<CatalogRow>)
    ensures |Plan(stock, lines)| == |MatchedPairs(stock, lines)|
    ensures forall t :: 0 <= t < |MatchedPairs(stock, lines)| ==>
      ReqUpdate(stock, MatchedPairs(stock, lines)[t].req, MatchedPairs(stock, lines)[t].count) == Some(Plan(stock, lines)[t])
  {
    if lines != [] {
      var last := lines[|lines| - 1];
      PlanPositions(stock, lines[..|lines| - 1]);
      ReqsPlanPositions(stock, last.recipe.recipeIngredients, last.count);
    }
  }

  /** A requirement's planned amount is negative exactly when the gate calls it short. */
  lemma ReqUpdateNegativeIffShort(stock: seq<Ingredient>, req: RecipeIngredient, count: int)
    ensures (exists u :: ReqUpdate(stock, req, count) == Some(u) && u.amount < 0) <==> ReqShort(stock, req, count)
  {
    if ReqShort(stock, req, count) {
      assert ReqUpdate(stock, req, count).value.amount < 0;
    }
  }

  /**
   * The payment handler's abort test and the pricing handler's stock gate agree: on one
   * snapshot, some planned amount is negative exactly when some purchased recipe is short.
   */
  lemma PlanNegativeIffInsufficient(stock: seq<Ingredient>, lines: seq<CatalogRow>)
    ensures HasNegative(Plan(stock, lines)) <==> !StockSufficient(stock, lines)
  {
    var plan := Plan(stock, lines);
    if HasNegative(plan) {
      var u :| u in plan && u.amount < 0;
      PlanMembers(stock, lines, u);
      var i, j :| 0 <= i < |lines| && 0 <= j < |lines[i].recipe.recipeIngredients|
        && ReqUpdate(stock, lines[i].recipe.recipeIngredients[j], lines[i].count) == Some(u);
      ReqUpdateNegativeIffShort(stock, lines[i].recipe.recipeIngredients[j], lines[i].count);
      assert LineShort(stock, lines[i]);
    }
    if !StockSufficient(stock, lines) {
      var i :| 0 <= i < |lines| && LineShort(stock, lines[i]);
      var j :| 0 <= j < |lines[i].recipe.recipeIngredients| && ReqShort(stock, lines[i].recipe.recipeIngredients[j], lines[i].count);
      ReqUpdateNegativeIffShort(stock, lines[i].recipe.recipeIngredients[j], lines[i].count);
      var u :| ReqUpdate(stock, lines[i].recipe.recipeIngredients[j], lines[i].count) == Some(u) && u.amount < 0;
      PlanMembers(stock, lines, u);
    }
  }

  /** What one requirement contributes, read off its name match. */
  lemma ReqUpdateByMatch(stock: seq<Ingredient>, req: RecipeIngredient, count: int)
    ensures FindByName(stock, req.name).None? ==> ReqUpdate(stock, req, count).None? && !ReqShort(stock, req, count)
    ensures FindByName(stock, req.name).Some? ==>
      var k := FindByName(stock, req.name).value;
      && ReqUpdate(stock, req, count) == Some(IngredientUpdate(stock[k].id, req.name, stock[k].amount - req.amount * count))
      && (ReqShort(stock, req, count) <==> stock[k].amount - req.amount * count < 0)
  {
  }

  /** Some of the first `n` requirements is short. */
  predicate ShortAmong(stock: seq<Ingredient>, reqs: seq<RecipeIngredient>, count: int, n: int)
    requires 0 <= n <= |reqs|
  {
    exists jj :: 0 <= jj < n && ReqShort(stock, reqs[jj], count)
  }

  /** Shortness grows one requirement at a time. */
  lemma ShortAmongStep(stock: seq<Ingredient>, reqs: seq<RecipeIngredient>, count: int, j: int)
    requires 0 <= j < |reqs|
    ensures ShortAmong(stock, reqs, count, j + 1) <==> ShortAmong(stock, reqs, count, j) || ReqShort(stock, reqs[j], count)
  {
  }

  /** A recipe's plan and shortness grow one requirement at a time. */
  lemma ReqsPlanStep(stock: seq<Ingredient>, reqs: seq<RecipeIngredient>, count: int, j: int)
    requires 0 <= j < |reqs|
    ensures ReqsPlan(stock, reqs[..j + 1], count) == ReqsPlan(stock, reqs[..j], count) + UpdateList(ReqUpdate(stock, reqs[j], count))
  {
    assert reqs[..j + 1][..j] == reqs[..j];
  }

  /** The plan and the gate grow one purchased recipe at a time. */
  lemma PlanStep(stock: seq<Ingredient>, lines: seq<CatalogRow>, i: int)
    requires 0 <= i < |lines|
    ensures Plan(stock, lines[..i + 1]) == Plan(stock, lines[..i]) + ReqsPlan(stock, lines[i].recipe.recipeIngredients, lines[i].count)
    ensures StockSufficient(stock, lines[..i + 1]) <==> StockSufficient(stock, lines[..i]) && !LineShort(stock, lines[i])
  {
    assert lines[..i + 1][..i] == lines[..i];
    assert lines[..i + 1][i] == lines[i];
  }

  /**
   * The inner loop of `onSubmitPay` for one purchased recipe: for each requirement with
   * a name match, the new amount is the snapshot amount minus requirement times count;
   * it stops (the source throws) at the first negative one.
   */
  method PlanRecipe(recipe: CatalogRow, stock: seq<Ingredient>) returns (aborted: bool, updates: seq<IngredientUpdate>)
    ensures aborted == LineShort(stock, recipe)
    ensures !aborted ==> updates == ReqsPlan(stock, recipe.recipe.recipeIngredients, recipe.count)
  {
    var reqs := recipe.recipe.recipeIngredients;
    aborted, updates := false, [];
    for j := 0 to |reqs|
      invariant updates == ReqsPlan(stock, reqs[..j], recipe.count)
      invariant !ShortAmong(stock, reqs, recipe.count, j)
    {
      ReqsPlanStep(stock, reqs, recipe.count, j);
      ShortAmongStep(stock, reqs, recipe.count, j);
      ReqUpdateByMatch(stock, reqs[j], recipe.count);
      var matchingIngredient := FindByName(stock, reqs[j].name);
      if matchingIngredient.Some? {
        var neededAmount := reqs[j].amount * recipe.count;
        var updatedAmount := stock[matchingIngredient.value].amount - neededAmount;
        if updatedAmount < 0 {
          aborted := true;
          break;
        }
        updates := updates + [IngredientUpdate(stock[matchingIngredient.value].id, reqs[j].name, updatedAmount)];
      }
    }
    if !aborted {
      assert reqs[..|reqs|] == reqs;
    }
  }

  /**
   * The outer loop of `onSubmitPay`: collects every purchased recipe's updates in order,
   * stopping at the first recipe that would drive an amount negative.
   */
  method PlanDeduction(purchase: seq<CatalogRow>, stock: seq<Ingredient>) returns (aborted: bool, ingredientUpdates: seq<IngredientUpdate>)
    ensures aborted == !StockSufficient(stock, purchase)
    ensures !aborted ==> ingredientUpdates == Plan(stock, purchase)
  {
    ingredientUpdates := [];
    for i := 0 to |purchase|
      invariant ingredientUpdates == Plan(stock, purchase[..i])
      invariant StockSufficient(stock, purchase[..i])
    {
      PlanStep(stock, purchase, i);
      var recipeAborted, recipeUpdates := PlanRecipe(purchase[i], stock);
      if recipeAborted {
        return true, ingredientUpdates;
      }
      ingredientUpdates := ingredientUpdates + recipeUpdates;
    }
    assert purchase[..|purchase|] == purchase;
    aborted := false;
  }

  /**
   * `onSubmitPay`: validates the payment; with a non-empty purchase plans the deduction
   * and aborts before any update is sent when an amount would be negative; otherwise
   * the change is payment minus final price.
   */
  method Pay(payment: Option<int>, finalPrice: int, purchase: seq<CatalogRow>, stock: seq<Ingredient>) returns (out: PayOutcome)
    ensures out == PaySpec(payment, finalPrice, purchase, stock)
    ensures out.PaymentRejected? <==> PaymentErrorOf(payment, finalPrice).Some?
    ensures out == StockWouldGoNegative <==>
      PaymentErrorOf(payment, finalPrice).None? && |purchase| > 0 && !StockSufficient(stock, purchase)
    ensures out.Paid? ==> && payment.Some?
                          && out.change == payment.value - finalPrice >= 0
                          && out.updates == Plan(stock, purchase)
                          && (forall u :: u in out.updates ==> u.amount >= 0)
  {
    PlanNegativeIffInsufficient(stock, purchase);
    var newError := PaymentErrorOf(payment, finalPrice);
    if newError.Some? {
      return PaymentRejected(newError.value);
    }
    if |purchase| == 0 {
      return NothingToPurchase;
    }
    var aborted, ingredientUpdates := PlanDeduction(purchase, stock);
    if aborted {
      return StockWouldGoNegative;
    }
    out := Paid(ingredientUpdates, payment.value - finalPrice);
  }

  /** A priced purchase holds at least one line and passed the stock gate. */
  lemma PricedPurchaseIsNonEmpty(rows: seq<CatalogRow>, stock: seq<Ingredient>)
    requires PriceSpec(rows, stock).Priced?
    ensures |PriceSpec(rows, stock).purchase| > 0
    ensures StockSufficient(stock, PriceSpec(rows, stock).purchase)
  {
    PurchasableIsSelection(rows);
    var i :| 0 <= i < |rows| && rows[i].select;
    assert rows[i] in SelectedRows(rows);
  }

  /**
   * On one snapshot, a priced purchase paid with an accepted payment never aborts: the
   * payment handler's negative-amount test cannot fire after the pricing gate passed.
   */
  lemma PricedThenPaid(rows: seq<CatalogRow>, stock: seq<Ingredient>, payment: Option<int>)
    requires PriceSpec(rows, stock).Priced?
    requires PaymentErrorOf(payment, PriceSpec(rows, stock).finalPrice).None?
    ensures var p := PriceSpec(rows, stock);
      PaySpec(payment, p.finalPrice, p.purchase, stock) == Paid(Plan(stock, p.purchase), payment.value - p.finalPrice)
  {
    var p := PriceSpec(rows, stock);
    PricedPurchaseIsNonEmpty(rows, stock);
    PlanNegativeIffInsufficient(stock, p.purchase);
  }
}
