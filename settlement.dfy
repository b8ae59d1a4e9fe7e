/**
 * What the purchase's deduction plan does to the stored inventory once its
 * `PUT /ingredient/{id}` requests reach `updateIngredient`, and the deduction the
 * purchase evidently intends: every purchased recipe's needs subtracted from the
 * stock, refused when their sum exceeds what is stored.
 */
module StockDeduction {
  import opened Wrappers
  import opened Models
  import opened IngredientStore
  import opened PurchaseRecipe

  // ---------------------------------------------------------------- the plan as written

  /**
   * The stored table after the plan's updates are applied one after another by
   * `updateIngredient` (an update whose key is gone changes nothing).
   */
  function ApplyPlan(items: seq<Ingredient>, plan: seq<IngredientUpdate>): seq<Ingredient> {
    if plan == [] then items
    else
      var before := ApplyPlan(items, plan[..|plan| - 1]);
      var u := plan[|plan| - 1];
      match UpdateSpec(before, u.id, u.name, u.amount)
      case Success(after) => after
      case Failure(_) => before
  }

  /** The last update of the plan addressed to key `id`, if any. */
  function LastWrite(plan: seq<IngredientUpdate>, id: int): (r: Option<IngredientUpdate>)
    ensures r.Some? ==> r.value in plan && r.value.id == id
    ensures r.None? <==> forall u :: u in plan ==> u.id != id
    ensures r.Some? ==> exists i :: 0 <= i < |plan| && plan[i] == r.value && forall j :: i < j < |plan| ==> plan[j].id != id
  {
    if plan == [] then None
    else if plan[|plan| - 1].id == id then Some(plan[|plan| - 1])
    else LastWrite(plan[..|plan| - 1], id)
  }

  /** A stored ingredient as the last write to its key leaves it. */
  function Written(g: Ingredient, w: Option<IngredientUpdate>): Ingredient {
    match w
    case None => g
    case Some(u) => Ingredient(g.id, u.name, u.amount)
  }

  /**
   * Each write sets an absolute amount, so the last write to a key wins: every stored
   * ingredient ends with the amount of the last planned update to its key, whatever the
   * earlier updates to that key said.
   */
  lemma {:induction false} ApplyPlanLastWriteWins(items: seq<Ingredient>, plan: seq<IngredientUpdate>)
    requires UniqueIds(items)
    ensures |ApplyPlan(items, plan)| == |items|
    ensures forall k :: 0 <= k < |items| ==> ApplyPlan(items, plan)[k] == Written(items[k], LastWrite(plan, items[k].id))
  {
    if plan != [] {
      var init := plan[..|plan| - 1];
      var u := plan[|plan| - 1];
      ApplyPlanLastWriteWins(items, init);
      var before := ApplyPlan(items, init);
      assert forall k :: 0 <= k < |items| ==> before[k].id == items[k].id;
      assert UniqueIds(before) by {
        forall j, k | 0 <= j < k < |before| ensures before[j].id != before[k].id {
          assert before[j].id == items[j].id && before[k].id == items[k].id;
        }
      }
      var r := UpdateSpec(before, u.id, u.name, u.amount);
      if r.Success? {
        UpdateChangesOnlyTarget(before, u.id, u.name, u.amount);
      }
    }
  }

  /** A one-entry inventory: 120 of Milk under key 1. */
  const MilkStock: seq<Ingredient> := [Ingredient(1, "Milk", 120)]
  /** A latte needing 100 Milk, ordered once. */
  const LatteLine := CatalogRow(true, Recipe(1, "Latte", 3, [RecipeIngredient("Milk", 100)]), 1)
  /** A cortado needing 50 Milk, ordered once. */
  const CortadoLine := CatalogRow(true, Recipe(2, "Cortado", 2, [RecipeIngredient("Milk", 50)]), 1)
  /** Both drinks in one purchase. */
  const SharedMilkOrder: seq<CatalogRow> := [LatteLine, CortadoLine]
  /** The two absolute writes to the Milk key, each computed from the snapshot. */
  const SharedMilkPlan: seq<IngredientUpdate> := [IngredientUpdate(1, "Milk", 20), IngredientUpdate(1, "Milk", 70)]

  /** Two ticked lines with positive counts are both pushed, and their total is the sum of their prices. */
  lemma PurchasableOfTwo(a: CatalogRow, b: CatalogRow)
    requires a.select && b.select && a.count > 0 && b.count > 0
    ensures Purchasable([a, b]) == [a, b]
    ensures Total([a, b]) == a.count * a.recipe.price + b.count * b.recipe.price
  {
    assert [a, b][..1] == [a] && [a][..0] == [];
    assert Purchasable([a]) == [a];
    assert Total([a]) == a.count * a.recipe.price;
  }

  /** A two-line purchase passes the per-recipe gate exactly when neither line is short. */
  lemma SufficientOfTwo(stock: seq<Ingredient>, a: CatalogRow, b: CatalogRow)
    ensures StockSufficient(stock, [a, b]) <==> !LineShort(stock, a) && !LineShort(stock, b)
  {
    assert [a, b][0] == a && [a, b][1] == b;
  }

  /** A purchase of two ticked lines with positive counts is priced at their total unless one of them is short. */
  lemma PriceOfTwo(stock: seq<Ingredient>, a: CatalogRow, b: CatalogRow)
    requires a.select && b.select && a.count > 0 && b.count > 0
    ensures PriceSpec([a, b], stock) ==
      if LineShort(stock, a) || LineShort(stock, b) then InsufficientInventory
      else Priced([a, b], a.count * a.recipe.price + b.count * b.recipe.price)
  {
    assert AnySelected([a, b]) by { assert [a, b][0].select; }
    assert CountsValid([a, b]);
    PurchasableOfTwo(a, b);
    SufficientOfTwo(stock, a, b);
  }

  /** The latte's 100 of Milk fits into 120. */
  lemma LatteFits()
    ensures !LineShort(MilkStock, LatteLine)
  {
    assert FindByName(MilkStock, "Milk") == Some(0);
  }

  /** The cortado's 50 of Milk fits into 120. */
  lemma CortadoFits()
    ensures !LineShort(MilkStock, CortadoLine)
  {
    assert FindByName(MilkStock, "Milk") == Some(0);
  }

  /** Each drink on its own fits into the 120 of Milk, so the per-recipe gate prices the order. */
  lemma SharedMilkOrderIsPriced()
    ensures PriceSpec(SharedMilkOrder, MilkStock) == Priced(SharedMilkOrder, 5)
  {
    LatteFits();
    CortadoFits();
    PriceOfTwo(MilkStock, LatteLine, CortadoLine);
    assert SharedMilkOrder == [LatteLine, CortadoLine];
    assert PriceSpec(SharedMilkOrder, MilkStock) == Priced(SharedMilkOrder, LatteLine.count * LatteLine.recipe.price + CortadoLine.count * CortadoLine.recipe.price);
    assert LatteLine.count * LatteLine.recipe.price + CortadoLine.count * CortadoLine.recipe.price == 5;
  }

  /** The plan of a two-line purchase is the first line's updates, then the second's. */
  lemma PlanOfTwo(stock: seq<Ingredient>, a: CatalogRow, b: CatalogRow)
    ensures Plan(stock, [a, b]) == ReqsPlan(stock, a.recipe.recipeIngredients, a.count) + ReqsPlan(stock, b.recipe.recipeIngredients, b.count)
  {
    assert [a, b][..1] == [a] && [a][..0] == [];
    var first := ReqsPlan(stock, a.recipe.recipeIngredients, a.count);
    assert [] + first == first;
    assert Plan(stock, [a]) == first;
  }

  /** The latte's one requirement plans Milk at 120 - 100. */
  lemma LattePlansTwenty()
    ensures ReqsPlan(MilkStock, LatteLine.recipe.recipeIngredients, 1) == [SharedMilkPlan[0]]
  {
    assert FindByName(MilkStock, "Milk") == Some(0);
    var reqs := LatteLine.recipe.recipeIngredients;
    assert reqs[..0] == [];
  }

  /** The cortado's one requirement plans Milk at 120 - 50. */
  lemma CortadoPlansSeventy()
    ensures ReqsPlan(MilkStock, CortadoLine.recipe.recipeIngredients, 1) == [SharedMilkPlan[1]]
  {
    assert FindByName(MilkStock, "Milk") == Some(0);
    var reqs := CortadoLine.recipe.recipeIngredients;
    assert reqs[..0] == [];
  }

  /** The plan of both drinks is the two writes, in purchase order. */
  lemma SharedMilkPlanIsPlan()
    ensures Plan(MilkStock, SharedMilkOrder) == SharedMilkPlan
  {
    LattePlansTwenty();
    CortadoPlansSeventy();
    PlanOfTwo(MilkStock, LatteLine, CortadoLine);
  }

  /** A mocha needing, like the latte, 100 Milk, ordered once. */
  const MochaLine := CatalogRow(true, Recipe(3, "Mocha", 4, [RecipeIngredient("Milk", 100)]), 1)

  /** The mocha's one requirement plans Milk at 120 - 100, the same write as the latte's. */
  lemma MochaPlansTwenty()
    ensures ReqsPlan(MilkStock, MochaLine.recipe.recipeIngredients, 1) == [SharedMilkPlan[0]]
  {
    assert FindByName(MilkStock, "Milk") == Some(0);
    var reqs := MochaLine.recipe.recipeIngredients;
    assert reqs[..0] == [];
  }

  /** Two drinks with the same need plan two equal writes: the plan keeps one update per pair, duplicates included. */
  lemma EqualNeedsPlanTwoEqualWrites()
    ensures Plan(MilkStock, [LatteLine, MochaLine]) == [IngredientUpdate(1, "Milk", 20), IngredientUpdate(1, "Milk", 20)]
  {
    LattePlansTwenty();
    MochaPlansTwenty();
    PlanOfTwo(MilkStock, LatteLine, MochaLine);
  }

  /** Paying plans two writes to the Milk key: 120 - 100 and 120 - 50. */
  lemma SharedMilkOrderPlansTwoWrites()
    ensures PaySpec(Some(5), 5, SharedMilkOrder, MilkStock) == Paid(SharedMilkPlan, 0)
  {
    SharedMilkPlanIsPlan();
    assert !HasNegative(SharedMilkPlan);
  }

  /** Applied in order, the second write overwrites the first: Milk ends at 70. */
  lemma SharedMilkPlanEndsAt70()
    ensures ApplyPlan(MilkStock, SharedMilkPlan) == [Ingredient(1, "Milk", 70)]
  {
    assert SharedMilkPlan[..1] == [SharedMilkPlan[0]] && [SharedMilkPlan[0]][..0] == [];
    assert IndexOfId(MilkStock, 1) == Some(0);
    assert ApplyPlan(MilkStock, [SharedMilkPlan[0]]) == [Ingredient(1, "Milk", 20)];
    assert IndexOfId([Ingredient(1, "Milk", 20)], 1) == Some(0);
  }

  /** The combined need on Milk is 150. */
  lemma SharedMilkOrderNeeds150()
    ensures Demands(SharedMilkOrder) == [Demand("Milk", 100), Demand("Milk", 50)]
    ensures NeedOn(MilkStock, Demands(SharedMilkOrder), 0) == 150
  {
    assert FindByName(MilkStock, "Milk") == Some(0);
    assert SharedMilkOrder[..1] == [LatteLine] && [LatteLine][..0] == [];
    assert ReqDemands(LatteLine.recipe.recipeIngredients, 1) == [Demand("Milk", 100)];
    assert ReqDemands(CortadoLine.recipe.recipeIngredients, 1) == [Demand("Milk", 50)];
    assert Demands([LatteLine]) == [Demand("Milk", 100)];
    var ds := [Demand("Milk", 100), Demand("Milk", 50)];
    assert ds[1..] == [Demand("Milk", 50)] && ds[1..][1..] == [];
  }

  /**
   * Finding, as written: two purchased recipes sharing Milk both pass the per-recipe gate
   * against 120 in stock although together they need 150; the plan holds two writes to
   * the Milk key, each from the snapshot; applied, the stored Milk ends at 70, as if only
   * the second recipe had been made.
   */
  lemma SharedIngredientDeductedOnce()
    ensures PriceSpec(SharedMilkOrder, MilkStock).Priced?
    ensures PaySpec(Some(5), 5, SharedMilkOrder, MilkStock) == Paid(SharedMilkPlan, 0)
    ensures ApplyPlan(MilkStock, SharedMilkPlan) == [MilkStock[0].(amount := MilkStock[0].amount - CortadoLine.recipe.recipeIngredients[0].amount)]
    ensures NeedOn(MilkStock, Demands(SharedMilkOrder), 0) > MilkStock[0].amount
  {
    SharedMilkOrderIsPriced();
    SharedMilkOrderPlansTwoWrites();
    SharedMilkPlanEndsAt70();
    SharedMilkOrderNeeds150();
  }

  // ---------------------------------------------------------------- the intended deduction

  /** One unit of demand: a requirement's name and requirement times count. */
  datatype Demand = Demand(name: string, need: int)

  /** The demands of one purchased recipe, in requirement order. */
  function ReqDemands(reqs: seq<RecipeIngredient>, count: int): (ds: seq<Demand>)
    ensures |ds| == |reqs|
    ensures forall j :: 0 <= j < |reqs| ==> ds[j] == Demand(reqs[j].name, reqs[j].amount * count)
  {
    seq(|reqs|, j requires 0 <= j < |reqs| => Demand(reqs[j].name, reqs[j].amount * count))
  }

  /** Every purchased recipe's demands, in purchase order. */
  function Demands(lines: seq<CatalogRow>): seq<Demand> {
    if lines == [] then []
    else
      var last := lines[|lines| - 1];
      Demands(lines[..|lines| - 1]) + ReqDemands(last.recipe.recipeIngredients, last.count)
  }

  /** Each requirement of each purchased recipe is one of the demands. */
  lemma {:induction false} DemandsCoverRequirements(lines: seq<CatalogRow>, i: int, j: int)
    requires 0 <= i < |lines| && 0 <= j < |lines[i].recipe.recipeIngredients|
    ensures var req := lines[i].recipe.recipeIngredients[j];
      Demand(req.name, req.amount * lines[i].count) in Demands(lines)
  {
    var init := lines[..|lines| - 1];
    var last := lines[|lines| - 1];
    if i < |init| {
      assert init[i] == lines[i];
      DemandsCoverRequirements(init, i, j);
    } else {
      assert ReqDemands(last.recipe.recipeIngredients, last.count)[j] in ReqDemands(last.recipe.recipeIngredients, last.count);
    }
  }

  /** The combined need on stock entry `k`: the demands whose name's first match is entry `k`. */
  function NeedOn(stock: seq<Ingredient>, ds: seq<Demand>, k: int): int {
    if ds == [] then 0
    else (if FindByName(stock, ds[0].name) == Some(k) then ds[0].need else 0) + NeedOn(stock, ds[1..], k)
  }

  /** No demand is negative (recipe amounts and counts are positive when created and priced). */
  predicate NonNegativeDemands(ds: seq<Demand>) {
    forall d :: d in ds ==> d.need >= 0
  }

  /** The intended gate: every stock entry holds at least the combined need of the whole purchase. */
  predicate AggregatedSufficient(stock: seq<Ingredient>, lines: seq<CatalogRow>) {
    forall k :: 0 <= k < |stock| ==> NeedOn(stock, Demands(lines), k) <= stock[k].amount
  }

  /**
   * The intended deduction: each demand is subtracted from the CURRENT amount of its
   * first name match; the whole deduction is refused (None) as soon as an amount would
   * drop below zero.
   */
  function DeductAll(items: seq<Ingredient>, ds: seq<Demand>): Option<seq<Ingredient>>
    decreases |ds|
  {
    if ds == [] then Some(items)
    else match FindByName(items, ds[0].name)
      case None => DeductAll(items, ds[1..])
      case Some(k) =>
        if items[k].amount - ds[0].need < 0 then None
        else DeductAll(items[k := items[k].(amount := items[k].amount - ds[0].need)], ds[1..])
  }

  /** Name lookup sees names only, so changing amounts does not move a match. */
  lemma FindByNameSeesNamesOnly(a: seq<Ingredient>, b: seq<Ingredient>, name: string)
    requires |a| == |b| && forall k :: 0 <= k < |a| ==> a[k].name == b[k].name
    ensures FindByName(a, name) == FindByName(b, name)
  {
    var ra, rb := FindByName(a, name), FindByName(b, name);
    if ra.Some? && rb.Some? {
      assert a[rb.value].name == name;
      assert b[ra.value].name == name;
    }
  }

  /** The combined need sees names only. */
  lemma {:induction false} NeedOnSeesNamesOnly(a: seq<Ingredient>, b: seq<Ingredient>, ds: seq<Demand>, k: int)
    requires |a| == |b| && forall j :: 0 <= j < |a| ==> a[j].name == b[j].name
    ensures NeedOn(a, ds, k) == NeedOn(b, ds, k)
  {
    if ds != [] {
      FindByNameSeesNamesOnly(a, b, ds[0].name);
      NeedOnSeesNamesOnly(a, b, ds[1..], k);
    }
  }

  /** A combined need over non-negative demands is at least each of its matching demands. */
  lemma {:induction false} NeedOnBoundsDemand(stock: seq<Ingredient>, ds: seq<Demand>, k: int, d: Demand)
    requires NonNegativeDemands(ds)
    ensures NeedOn(stock, ds, k) >= 0
    ensures d in ds && FindByName(stock, d.name) == Some(k) ==> NeedOn(stock, ds, k) >= d.need
  {
    if ds != [] {
      assert ds[0] in ds;
      assert forall e :: e in ds[1..] ==> e in ds;
      NeedOnBoundsDemand(stock, ds[1..], k, d);
      if d in ds && d != ds[0] {
        assert d in ds[1..];
      }
    }
  }

  /** Some stock entry holds less than its combined need. */
  predicate Shortfall(items: seq<Ingredient>, ds: seq<Demand>) {
    exists k :: 0 <= k < |items| && items[k].amount < NeedOn(items, ds, k)
  }

  /** Every stock entry with its combined need subtracted. */
  function Deducted(items: seq<Ingredient>, ds: seq<Demand>): (r: seq<Ingredient>)
    ensures |r| == |items|
    ensures forall k :: 0 <= k < |items| ==> r[k] == items[k].(amount := items[k].amount - NeedOn(items, ds, k))
  {
    seq(|items|, k requires 0 <= k < |items| => items[k].(amount := items[k].amount - NeedOn(items, ds, k)))
  }

  /** Taking one matched demand off the current stock moves that need out of the combined need. */
  lemma NeedOnAfterStep(items: seq<Ingredient>, ds: seq<Demand>, k0: nat, k: int)
    requires ds != [] && FindByName(items, ds[0].name) == Some(k0)
    ensures NeedOn(items[k0 := items[k0].(amount := items[k0].amount - ds[0].need)], ds[1..], k)
         == NeedOn(items, ds, k) - (if k == k0 then ds[0].need else 0)
  {
    NeedOnSeesNamesOnly(items[k0 := items[k0].(amount := items[k0].amount - ds[0].need)], items, ds[1..], k);
  }

  /** One matched demand taken off the current stock leaves the same shortfall. */
  lemma ShortfallStep(items: seq<Ingredient>, ds: seq<Demand>, k0: nat)
    requires ds != [] && FindByName(items, ds[0].name) == Some(k0)
    ensures Shortfall(items[k0 := items[k0].(amount := items[k0].amount - ds[0].need)], ds[1..]) <==> Shortfall(items, ds)
  {
    var items' := items[k0 := items[k0].(amount := items[k0].amount - ds[0].need)];
    if Shortfall(items, ds) {
      var k :| 0 <= k < |items| && items[k].amount < NeedOn(items, ds, k);
      NeedOnAfterStep(items, ds, k0, k);
      assert items'[k].amount < NeedOn(items', ds[1..], k);
    }
    if Shortfall(items', ds[1..]) {
      var k :| 0 <= k < |items'| && items'[k].amount < NeedOn(items', ds[1..], k);
      NeedOnAfterStep(items, ds, k0, k);
      assert items[k].amount < NeedOn(items, ds, k);
    }
  }

  /** One matched demand taken off the current stock leaves the same end state. */
  lemma DeductedStep(items: seq<Ingredient>, ds: seq<Demand>, k0: nat)
    requires ds != [] && FindByName(items, ds[0].name) == Some(k0)
    ensures Deducted(items[k0 := items[k0].(amount := items[k0].amount - ds[0].need)], ds[1..]) == Deducted(items, ds)
  {
    var items' := items[k0 := items[k0].(amount := items[k0].amount - ds[0].need)];
    forall k | 0 <= k < |items| ensures Deducted(items', ds[1..])[k] == Deducted(items, ds)[k] {
      NeedOnAfterStep(items, ds, k0, k);
    }
  }

  /** One matched demand taken off the current stock leaves the same shortfall and the same end state. */
  lemma DeductStep(items: seq<Ingredient>, ds: seq<Demand>, k0: nat)
    requires ds != [] && FindByName(items, ds[0].name) == Some(k0)
    ensures var items' := items[k0 := items[k0].(amount := items[k0].amount - ds[0].need)];
      && (Shortfall(items', ds[1..]) <==> Shortfall(items, ds))
      && Deducted(items', ds[1..]) == Deducted(items, ds)
  {
    ShortfallStep(items, ds, k0);
    DeductedStep(items, ds, k0);
  }

  /** A demand whose name matches nothing changes neither the shortfall nor the end state. */
  lemma DeductSkip(items: seq<Ingredient>, ds: seq<Demand>)
    requires ds != [] && FindByName(items, ds[0].name).None?
    ensures Shortfall(items, ds[1..]) <==> Shortfall(items, ds)
    ensures Deducted(items, ds[1..]) == Deducted(items, ds)
  {
    forall k ensures NeedOn(items, ds, k) == NeedOn(items, ds[1..], k) {
    }
    if Shortfall(items, ds) {
      var k :| 0 <= k < |items| && items[k].amount < NeedOn(items, ds, k);
      assert items[k].amount < NeedOn(items, ds[1..], k);
    }
    if Shortfall(items, ds[1..]) {
      var k :| 0 <= k < |items| && items[k].amount < NeedOn(items, ds[1..], k);
      assert items[k].amount < NeedOn(items, ds, k);
    }
    forall k | 0 <= k < |items| ensures Deducted(items, ds[1..])[k] == Deducted(items, ds)[k] {
    }
  }

  /** A matched demand larger than the current amount is a shortfall of the whole deduction. */
  lemma DeductRefused(items: seq<Ingredient>, ds: seq<Demand>, k0: nat)
    requires ds != [] && FindByName(items, ds[0].name) == Some(k0)
    requires NonNegativeDemands(ds)
    requires items[k0].amount - ds[0].need < 0
    ensures Shortfall(items, ds)
  {
    assert forall e :: e in ds[1..] ==> e in ds;
    NeedOnBoundsDemand(items, ds[1..], k0, ds[0]);
    assert items[k0].amount < NeedOn(items, ds, k0);
  }

  /** No stored amount is below zero. */
  predicate NonNegativeStock(items: seq<Ingredient>) {
    forall k :: 0 <= k < |items| ==> items[k].amount >= 0
  }

  /** Lowering one amount to a value that is still non-negative keeps the stock non-negative. */
  lemma LoweredStaysNonNegative(items: seq<Ingredient>, k0: nat, v: int)
    requires NonNegativeStock(items) && k0 < |items| && v >= 0
    ensures NonNegativeStock(items[k0 := items[k0].(amount := v)])
  {
  }

  /**
   * Corrected deduction: it is refused exactly when some stock entry holds less than the
   * combined need of the purchase, and otherwise every entry ends at its amount minus
   * its combined need, with name and key unchanged.
   */
  lemma {:induction false} DeductAllSubtractsCombinedNeed(items: seq<Ingredient>, ds: seq<Demand>)
    requires NonNegativeStock(items)
    requires NonNegativeDemands(ds)
    decreases |ds|
    ensures DeductAll(items, ds) == if Shortfall(items, ds) then None else Some(Deducted(items, ds))
  {
    if ds == [] {
      assert Deducted(items, ds) == items;
      return;
    }
    var rest := ds[1..];
    assert NonNegativeDemands(rest) by {
      assert forall e :: e in rest ==> e in ds;
    }
    var m := FindByName(items, ds[0].name);
    if m.None? {
      assert DeductAll(items, ds) == DeductAll(items, rest);
      DeductSkip(items, ds);
      DeductAllSubtractsCombinedNeed(items, rest);
    } else if items[m.value].amount - ds[0].need < 0 {
      assert DeductAll(items, ds) == None;
      DeductRefused(items, ds, m.value);
    } else {
      var k0 := m.value;
      var items' := items[k0 := items[k0].(amount := items[k0].amount - ds[0].need)];
      assert DeductAll(items, ds) == DeductAll(items', rest);
      LoweredStaysNonNegative(items, k0, items[k0].amount - ds[0].need);
      DeductStep(items, ds, k0);
      DeductAllSubtractsCombinedNeed(items', rest);
    }
  }

  /** Whatever the corrected deduction accepts leaves no amount below zero. */
  lemma DeductAllNeverNegative(items: seq<Ingredient>, ds: seq<Demand>)
    requires NonNegativeStock(items)
    requires NonNegativeDemands(ds)
    requires DeductAll(items, ds).Some?
    ensures forall g :: g in DeductAll(items, ds).value ==> g.amount >= 0
  {
    DeductAllSubtractsCombinedNeed(items, ds);
  }

  /** The corrected deduction of a purchase succeeds exactly when the intended gate passes. */
  lemma DeductAllIffAggregated(stock: seq<Ingredient>, lines: seq<CatalogRow>)
    requires NonNegativeStock(stock)
    requires NonNegativeDemands(Demands(lines))
    ensures DeductAll(stock, Demands(lines)).Some? <==> AggregatedSufficient(stock, lines)
  {
    DeductAllSubtractsCombinedNeed(stock, Demands(lines));
  }

  /** The intended gate is stricter than the per-recipe gate as written: passing it passes the per-recipe gate. */
  lemma AggregatedImpliesPerRecipe(stock: seq<Ingredient>, lines: seq<CatalogRow>)
    requires NonNegativeDemands(Demands(lines))
    requires AggregatedSufficient(stock, lines)
    ensures StockSufficient(stock, lines)
  {
    forall i | 0 <= i < |lines| ensures !LineShort(stock, lines[i]) {
      if LineShort(stock, lines[i]) {
        var reqs := lines[i].recipe.recipeIngredients;
        var j :| 0 <= j < |reqs| && ReqShort(stock, reqs[j], lines[i].count);
        var k := FindByName(stock, reqs[j].name).value;
        var d := Demand(reqs[j].name, reqs[j].amount * lines[i].count);
        DemandsCoverRequirements(lines, i, j);
        NeedOnBoundsDemand(stock, Demands(lines), k, d);
        assert false;
      }
    }
  }

  /** On the same purchase, the corrected deduction refuses what the as-written plan lets through. */
  lemma CorrectedRefusesSharedShortfall()
    ensures !AggregatedSufficient(MilkStock, SharedMilkOrder)
    ensures DeductAll(MilkStock, Demands(SharedMilkOrder)) == None
  {
    SharedMilkOrderNeeds150();
    var ds := [Demand("Milk", 100), Demand("Milk", 50)];
    assert FindByName(MilkStock, "Milk") == Some(0);
    assert ds[1..] == [Demand("Milk", 50)];
    assert FindByName([Ingredient(1, "Milk", 20)], "Milk") == Some(0);
    assert DeductAll([Ingredient(1, "Milk", 20)], ds[1..]) == None;
  }
}
