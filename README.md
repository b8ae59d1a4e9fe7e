# Coffee Maker 2.0 — a verified model of its ordering and inventory logic

Coffee Maker 2.0 is a small coffee shop application. A React frontend lets staff keep an
ingredient inventory, define recipes from inventory ingredients, and sell recipes. A
Spring backend stores the ingredients. This project models the decision logic of five
files in Dafny and proves what that logic promises:

- **Purchase page** (`PurchaseRecipe.js`), module `PurchaseRecipe` in `purchase.dfy`.
  - "Generate Cost" (`onSubmitGeneratePrice`) works in three steps: the selection loop, the count check, then the stock gate over the loaded inventory snapshot.
  - The payment check (`findFormErrors`).
  - "Place Order" (`onSubmitPay`) builds the deduction plan, aborts on a negative amount and computes the change.
  - Each handler is a method with its loops and flags, proved equal to a reference function (`PriceSpec`, `PaySpec`). Lemmas about those functions state what the page promises.
- **What the deduction plan does to the store**, module `StockDeduction` in `settlement.dfy`. This module holds the two findings below, with the evidently intended deduction modelled and proved beside the as-written one.
- **Recipe page** (`Recipes.js`), module `Recipes` in `recipes.dfy`.
  - The name/price check.
  - `onSubmit`. It pushes the accepted ingredient rows into the component's `selectedIngredients` list in place, so it is a class `RecipeEditor` with that list as a field.
- **Ingredient controller** (`IngredientController.java`), module `IngredientStore` in `ingredient_store.dfy`.
  - A class `IngredientController` over the stored table (`items`) and the next key the database would assign (`nextId`).
  - It also has reference functions for create, get, update and delete.
- **Inventory page** (`Inventory.js`), module `Inventory` in `inventory.dfy`: the new-ingredient form check, the field setter, and the post to the store.
- **Edit page** (`EditIngredient.js`), module `EditIngredient` in `edit_ingredient.dfy`: the edit form check, the amount conversion, the change handler, and the PUT to the store.

Shared pieces:
- `wrappers.dfy` (`Option`, `Result`).
- `models.dfy`. The backend's `Ingredient`, `Recipe` and `RecipeIngredient` entities have integer fields.
- `text.dfy`. JavaScript's `trim` and the decimal rendering of integers used in messages.

Inputs are modelled as values:
- A form field that was never typed, typed then cleared, or holds a number has its own constructor (`Unset`, `Blank`, `Entered`). JavaScript tells these apart, and the checks treat them differently.
- The loaded inventory is a parameter (`stock`, `inventory`).
- Requests the frontend sends end the model as values: `PostRecipe`, `PostIngredient`, `PutIngredient` and the `IngredientUpdate` plan. The `StockDeduction`, `Inventory` and `EditIngredient` modules then apply them to the store's reference functions.

The model follows the code as written:
- The stock gate checks each recipe on its own. Needs of different recipes are not summed.
- A requirement whose name matches no stock entry is skipped. It is not treated as a shortage.

The page's refusal text, "Not enough ingredients in stock to complete this purchase" (PurchaseRecipe.js:374), speaks of the purchase as a whole. That summed check is modelled separately as the corrected behaviour (see Findings).

## Model

| member | source | states |
|---|---|---|
| PurchaseRecipe.ScanSelection | coffeemaker2frontend/src/components/PurchaseRecipe.js:114-129 | the selection loop's flags are "some row ticked" and "every ticked row has a positive count"; the pushed rows are the ticked rows with a positive count, in catalogue order, and the total is the sum of count times price over them |
| PurchaseRecipe.CheckStock | coffeemaker2frontend/src/components/PurchaseRecipe.js:141-153 | the nested loops with their breaks return true exactly when no collected recipe has a requirement whose first name match in stock holds less than requirement times that recipe's count (unmatched names never fail) |
| PurchaseRecipe.GeneratePrice | coffeemaker2frontend/src/components/PurchaseRecipe.js:112-163 | no ticked row gives the no-selection alert whatever the counts; otherwise any ticked row with count <= 0 fails the whole request; otherwise the stock gate fails exactly when some ticked recipe is short; on success the purchase is exactly the ticked rows in order, all with positive counts, and the price is their total |
| PurchaseRecipe.SelectedRows | coffeemaker2frontend/src/components/PurchaseRecipe.js:119-125 | the ticked rows: every member is a ticked row of the table and every ticked row is a member |
| PurchaseRecipe.PurchasableIsSelection | coffeemaker2frontend/src/components/PurchaseRecipe.js:120-139 | once the count check has passed, the pushed rows are exactly the ticked rows |
| PurchaseRecipe.TotalAppend | coffeemaker2frontend/src/components/PurchaseRecipe.js:126 | the running total is additive: the total of two concatenated purchases is the sum of their totals |
| PurchaseRecipe.TotalPositive | coffeemaker2frontend/src/components/PurchaseRecipe.js:126-161 | a non-empty purchase of positive counts and prices has a positive final price |
| PurchaseRecipe.FindByName | coffeemaker2frontend/src/components/PurchaseRecipe.js:145 | `find` by name: the result is the first stock position with that name, and None exactly when no entry has it |
| PurchaseRecipe.PaymentError.Message | coffeemaker2frontend/src/components/PurchaseRecipe.js:99-102 | the three texts under the payment field; the below-price text is "Price must be greater than " followed by the final price's decimal rendering (digits, no leading zero, denoting the price; a "-" first when negative) |
| PurchaseRecipe.PaymentErrorOf | coffeemaker2frontend/src/components/PurchaseRecipe.js:96-105 | a blank payment gives "Please enter a price"; otherwise one <= 0 gives "Price must be greater than 0"; otherwise one below the final price gives the below-price message; a payment equal to or above the final price passes (each an if-and-only-if) |
| PurchaseRecipe.ReqsPlanMembers | coffeemaker2frontend/src/components/PurchaseRecipe.js:184-202 | an update is planned for a recipe exactly when one of its requirements has a name match producing it (snapshot amount minus requirement times count) |
| PurchaseRecipe.ReqsPlanHas | coffeemaker2frontend/src/components/PurchaseRecipe.js:184-202 | every requirement with a name match has its update in its recipe's plan |
| PurchaseRecipe.ReqsPlanSource | coffeemaker2frontend/src/components/PurchaseRecipe.js:184-202 | every update in a recipe's plan comes from one of its requirements |
| PurchaseRecipe.PlanMembers | coffeemaker2frontend/src/components/PurchaseRecipe.js:182-205 | an update is in the plan exactly when some (purchased recipe, requirement) pair with a name match produces it; unmatched names contribute nothing; every update comes from the snapshot |
| PurchaseRecipe.MatchedReqs | coffeemaker2frontend/src/components/PurchaseRecipe.js:184-189 | the requirements of a recipe that have a name match, in order, each with the recipe's count; no more of them than requirements |
| PurchaseRecipe.ReqsPlanPositions | coffeemaker2frontend/src/components/PurchaseRecipe.js:184-202 | a recipe's plan has exactly as many updates as matched requirements, and its t-th update is the t-th matched requirement's |
| PurchaseRecipe.PlanPositions | coffeemaker2frontend/src/components/PurchaseRecipe.js:182-205 | the plan has exactly one update per matched (purchased recipe, requirement) pair, in purchase order, and its t-th update is the t-th pair's, so equal updates are all kept |
| PurchaseRecipe.ReqUpdateNegativeIffShort | coffeemaker2frontend/src/components/PurchaseRecipe.js:146-195 | a requirement's planned amount is negative exactly when the pricing gate calls it short |
| PurchaseRecipe.PlanNegativeIffInsufficient | coffeemaker2frontend/src/components/PurchaseRecipe.js:141-205 | on one snapshot, the payment handler finds a negative planned amount exactly when the pricing gate would fail |
| PurchaseRecipe.PlanRecipe | coffeemaker2frontend/src/components/PurchaseRecipe.js:183-204 | the inner loop stops exactly when the recipe is short, and otherwise yields that recipe's updates in requirement order |
| PurchaseRecipe.PlanDeduction | coffeemaker2frontend/src/components/PurchaseRecipe.js:180-205 | the outer loop aborts exactly when some purchased recipe is short, and otherwise yields the whole plan in purchase order |
| PurchaseRecipe.Pay | coffeemaker2frontend/src/components/PurchaseRecipe.js:170-215 | a payment error rejects the order before anything else; an empty purchase does nothing; a valid payment on a short purchase aborts before any update is sent; otherwise the plan is sent, all of its amounts are >= 0, and the change is payment minus final price, which is >= 0 |
| PurchaseRecipe.PricedThenPaid | coffeemaker2frontend/src/components/PurchaseRecipe.js:155-195 | a purchase that passed pricing and is paid with an accepted payment never aborts on the same snapshot: it is paid with the full plan |
| StockDeduction.LastWrite | coffeemaker2frontend/src/components/PurchaseRecipe.js:207-210 | the result is the update at some position of the plan addressed to the key, with no later update addressed to it; there is none exactly when no update targets the key |
| StockDeduction.ApplyPlanLastWriteWins | coffeemaker2frontend/src/components/PurchaseRecipe.js:207-210 | applying the plan's PUTs through `updateIngredient` leaves every stored ingredient with the name and amount of the last update to its key (untouched if none), keys and table length unchanged |
| StockDeduction.SharedMilkOrderIsPriced | coffeemaker2frontend/src/components/PurchaseRecipe.js:141-161 | Milk 120 with a latte (100) and a cortado (50), one each: the per-recipe gate prices the order at 5 |
| StockDeduction.EqualNeedsPlanTwoEqualWrites | coffeemaker2frontend/src/components/PurchaseRecipe.js:182-205 | two drinks each needing 100 of the 120 Milk plan two equal writes of 20, not one |
| StockDeduction.SharedMilkOrderPlansTwoWrites | coffeemaker2frontend/src/components/PurchaseRecipe.js:182-213 | paying it plans two writes to the Milk key, 20 and 70, both from the snapshot, with change 0 |
| StockDeduction.SharedMilkPlanEndsAt70 | coffeemaker2frontend/src/components/PurchaseRecipe.js:207-210 | applied in order, the writes leave Milk at 70 |
| StockDeduction.SharedMilkOrderNeeds150 | coffeemaker2frontend/src/components/PurchaseRecipe.js:190 | the order's combined need on Milk is 150 |
| StockDeduction.SharedIngredientDeductedOnce | coffeemaker2frontend/src/components/PurchaseRecipe.js:141-210 | the order is priced and paid, the stock ends at 120 minus the cortado's 50 alone, and the combined need exceeds the stock |
| StockDeduction.ReqDemands | coffeemaker2frontend/src/components/PurchaseRecipe.js:190 | one demand per requirement, in order: its name and requirement times count |
| StockDeduction.DemandsCoverRequirements | coffeemaker2frontend/src/components/PurchaseRecipe.js:182-190 | every requirement of every purchased recipe appears among the purchase's demands |
| StockDeduction.NeedOnBoundsDemand | coffeemaker2frontend/src/components/PurchaseRecipe.js:190 | the combined need on an entry is >= 0 and at least each single demand matching it |
| StockDeduction.NeedOnSeesNamesOnly | coffeemaker2frontend/src/components/PurchaseRecipe.js:185-187 | deductions change amounts only, so combined needs computed before and after agree |
| StockDeduction.Deducted | coffeemaker2frontend/src/components/PurchaseRecipe.js:190-191 | every entry with its combined need subtracted, keys and names kept |
| StockDeduction.DeductStep | coffeemaker2frontend/src/components/PurchaseRecipe.js:189-191 | taking one matched demand off the current stock keeps the shortfall and the final state of the rest of the deduction |
| StockDeduction.DeductAllSubtractsCombinedNeed | coffeemaker2frontend/src/components/PurchaseRecipe.js:182-210 | the corrected deduction is refused exactly when some entry holds less than its combined need, and otherwise lowers every entry by exactly its combined need |
| StockDeduction.DeductAllNeverNegative | coffeemaker2frontend/src/components/PurchaseRecipe.js:193-195 | whatever the corrected deduction accepts leaves no amount below zero |
| StockDeduction.DeductAllIffAggregated | coffeemaker2frontend/src/components/PurchaseRecipe.js:141-158 | the corrected deduction succeeds exactly when the summed gate passes |
| StockDeduction.AggregatedImpliesPerRecipe | coffeemaker2frontend/src/components/PurchaseRecipe.js:141-153 | the summed gate is stricter: passing it passes the per-recipe gate as written |
| StockDeduction.CorrectedRefusesSharedShortfall | coffeemaker2frontend/src/components/PurchaseRecipe.js:141-158 | on the Milk order the summed gate fails and the corrected deduction refuses |
| Recipes.FindFormErrors | coffeemaker2frontend/src/components/Recipes.js:74-83 | an absent or empty name (not a name of spaces) gives "Please enter a name"; an absent price gives "Please enter a price"; an empty or non-positive price gives "Price must be greater than 0"; the form passes exactly when the name is non-empty and the price positive |
| Recipes.SubmitOutcome.Alert | coffeemaker2frontend/src/components/Recipes.js:246-256 | an alert text is shown exactly for the three table failures: "Ingredient amount(s) cannot be blank" for a blank amount, "Ingredient amount(s) entered is more than whats available" for an amount over stock, "Please select at least one ingredient" for no selection |
| Recipes.RowEntry | coffeemaker2frontend/src/components/Recipes.js:95-103 | a row pushes an entry exactly when it is ticked with a typed amount in (0, stock at the same index], and the entry carries its name and typed amount |
| Recipes.RecipeEditor.CollectIngredients | coffeemaker2frontend/src/components/Recipes.js:93-112 | the loop's flags are "no ticked row lacks a positive amount" and "no ticked row exceeds its stock", and the list grows by exactly the accepted rows, in table order |
| Recipes.RecipeEditor.OnSubmit | coffeemaker2frontend/src/components/Recipes.js:85-139 | the outcome and the new list are those of the reference submission (`Recipes.SubmitSpec`) |
| Recipes.PickedEntriesInBounds | coffeemaker2frontend/src/components/Recipes.js:95-103 | an entry is pushed exactly when a ticked row at some index has its name and typed amount, with 0 < amount <= the stock at that index |
| Recipes.PickedIsChosen | coffeemaker2frontend/src/components/Recipes.js:93-112 | with no blank and no over-stock row, the pushed entries are exactly the ticked rows, in table order |
| Recipes.UnselectedRowsIgnored | coffeemaker2frontend/src/components/Recipes.js:95 | rows that are not ticked affect neither the pushed entries nor either flag, whatever was typed in them |
| Recipes.SubmitIgnoresUnselectedRows | coffeemaker2frontend/src/components/Recipes.js:94-137 | two tables with the same ticked rows give the same submission |
| Recipes.SubmitErrorPriority | coffeemaker2frontend/src/components/Recipes.js:87-137 | form errors stop submission before the loop and keep the list; then a blank amount, then an amount over stock, then nothing selected; each failure posts nothing and empties the list; from an empty list, the no-selection alert appears exactly when the form is clean and no row is ticked |
| Recipes.NothingTickedPicksNothing | coffeemaker2frontend/src/components/Recipes.js:95-103 | with no row ticked, the loop pushes nothing |
| Recipes.FreshSubmitPostsSelection | coffeemaker2frontend/src/components/Recipes.js:93-122 | from an empty list, the posted recipe carries the form's non-empty name and positive price, and exactly the ticked ingredients in table order, each with 0 < amount <= its stock |
| IngredientStore.IndexOfId | coffeemaker2backend/src/main/java/csc326/coffeemaker2/controllers/IngredientController.java:40-56 | the position of the first entry with the key, and None exactly when no entry has it |
| IngredientStore.Lookup | coffeemaker2backend/src/main/java/csc326/coffeemaker2/controllers/IngredientController.java:38-42 | a found ingredient is stored under that key; not-found exactly when no entry has the key |
| IngredientStore.CreateResult | coffeemaker2backend/src/main/java/csc326/coffeemaker2/controllers/IngredientController.java:23-31 | creation fails with the name-exists error exactly when a stored ingredient has exactly that name, and otherwise yields the new ingredient under the fresh key |
| IngredientStore.UpdateSpec | coffeemaker2backend/src/main/java/csc326/coffeemaker2/controllers/IngredientController.java:44-52 | update fails with not-found exactly when no entry has the key, and otherwise keeps the table's length |
| IngredientStore.RemoveSpec | coffeemaker2backend/src/main/java/csc326/coffeemaker2/controllers/IngredientController.java:54-61 | delete fails with not-found exactly when no entry has the key, and otherwise shrinks the table by one |
| IngredientStore.CreatePreservesUniqueness | coffeemaker2backend/src/main/java/csc326/coffeemaker2/controllers/IngredientController.java:25-30 | appending an ingredient with a fresh key and an untaken name keeps keys, and names, unique |
| IngredientStore.CreateThenLookup | coffeemaker2backend/src/main/java/csc326/coffeemaker2/controllers/IngredientController.java:30-42 | a created ingredient is found by its key |
| IngredientStore.UpdateChangesOnlyTarget | coffeemaker2backend/src/main/java/csc326/coffeemaker2/controllers/IngredientController.java:44-52 | an update replaces only the target's name and amount, keeps its key, leaves every other entry unchanged and keeps keys unique |
| IngredientStore.UpdateThenLookup | coffeemaker2backend/src/main/java/csc326/coffeemaker2/controllers/IngredientController.java:38-52 | after an update, get by the same key returns exactly the new name and amount |
| IngredientStore.UpdateCanDuplicateName | coffeemaker2backend/src/main/java/csc326/coffeemaker2/controllers/IngredientController.java:25-48 | creating "Milk" beside a stored "Milk" fails, yet renaming another entry to "Milk" succeeds and leaves two entries named "Milk" |
| IngredientStore.RemoveDeletesExactlyTarget | coffeemaker2backend/src/main/java/csc326/coffeemaker2/controllers/IngredientController.java:54-61 | after delete, an ingredient is stored exactly when it was stored before and has another key; get by the deleted key fails |
| IngredientStore.IngredientController.constructor | coffeemaker2backend/src/main/java/csc326/coffeemaker2/controllers/IngredientController.java:18-21 | the store starts empty |
| IngredientStore.IngredientController.GetAllIngredients | coffeemaker2backend/src/main/java/csc326/coffeemaker2/controllers/IngredientController.java:33-36 | returns the stored table |
| IngredientStore.IngredientController.FindById | coffeemaker2backend/src/main/java/csc326/coffeemaker2/controllers/IngredientController.java:40-46 | the search loop returns the first position with the key, or None |
| IngredientStore.IngredientController.GetIngredientById | coffeemaker2backend/src/main/java/csc326/coffeemaker2/controllers/IngredientController.java:38-42 | returns the stored ingredient with that key, or not-found exactly when no entry has it |
| IngredientStore.IngredientController.NewIngredient | coffeemaker2backend/src/main/java/csc326/coffeemaker2/controllers/IngredientController.java:23-31 | the name loop throws name-exists and saves nothing (table and key counter unchanged) when the name is taken exactly; otherwise exactly one ingredient with the fresh key is appended and the counter advances; the store's invariant is kept |
| IngredientStore.IngredientController.UpdateIngredient | coffeemaker2backend/src/main/java/csc326/coffeemaker2/controllers/IngredientController.java:44-52 | an existing key gets the new name and amount, as the reference update says; an unknown key throws not-found and changes nothing |
| IngredientStore.IngredientController.DeleteIngredient | coffeemaker2backend/src/main/java/csc326/coffeemaker2/controllers/IngredientController.java:54-61 | an unknown key throws not-found and changes nothing; a known key is removed and the message names the key in decimal |
| Inventory.FindFormErrors | coffeemaker2frontend/src/components/Inventory.js:94-103 | an absent or whitespace-only name gives "Please enter a name"; an absent or empty amount gives "Please enter an amount"; otherwise an amount <= 0 gives "Amount must be greater than 0"; at most one amount message; each field's message depends on that field alone |
| Inventory.SetField | coffeemaker2frontend/src/components/Inventory.js:83-88 | the edited field takes the new value and its error is cleared; the other field and its error are unchanged |
| Inventory.HandleSubmit | coffeemaker2frontend/src/components/Inventory.js:109-121 | any message stops the submission and nothing is posted; a post carries the name as typed, non-blank, and a positive amount |
| Inventory.ClearedErrorIsRecheckedOnSubmit | coffeemaker2frontend/src/components/Inventory.js:83-116 | clearing a field's error on input hides nothing: an invalid new value is reported again on submit, and the submission is refused |
| Inventory.EditsCommute | coffeemaker2frontend/src/components/Inventory.js:83-88 | editing the name and the amount in either order gives the same form and errors |
| Inventory.AddOutcomes | coffeemaker2frontend/src/components/Inventory.js:109-129 | the form rejects exactly on a message; the name-exists alert appears exactly when the typed name is stored exactly; an added ingredient has the fresh key, a non-blank untaken name and a positive amount |
| Inventory.PaddedNameTrimsToOriginal | coffeemaker2frontend/src/components/Inventory.js:98 | " Milk" and "Milk" trim alike |
| Inventory.PaddedNameIsAddedBesideOriginal | coffeemaker2frontend/src/components/Inventory.js:98-124 | the form trims only to validate and posts the name as typed, and the store compares exactly, so " Milk" is added beside "Milk" |
| EditIngredient.InitialState | coffeemaker2frontend/src/components/EditIngredient.js:16-20 | the form starts with an empty name, an empty amount and no errors |
| EditIngredient.Loaded | coffeemaker2frontend/src/components/EditIngredient.js:35-36 | loading puts the stored name and amount in the form and keeps the errors |
| EditIngredient.ConvertAmount | coffeemaker2frontend/src/components/EditIngredient.js:54 | text that does not parse, and zero, become the empty string; any other number is kept, negative ones included; null never arises |
| EditIngredient.ValidateForm | coffeemaker2frontend/src/components/EditIngredient.js:73-85 | a null or whitespace-only name gives "Name is required"; an empty or null amount gives "Amount is required"; otherwise an amount <= 0 gives "Amount must be greater than 0"; valid input gives no message |
| EditIngredient.HandleChange | coffeemaker2frontend/src/components/EditIngredient.js:53-67 | the edited field takes its (converted) value and its error is cleared; the other field, its error and the general message stay |
| EditIngredient.HandleSubmit | coffeemaker2frontend/src/components/EditIngredient.js:92-103 | any message blocks the request; a PUT carries the page's key, a non-blank name and a positive amount, exactly as in the form |
| EditIngredient.ZeroAmountReportsRequired | coffeemaker2frontend/src/components/EditIngredient.js:54-81 | typing zero or unparsable text reports "Amount is required", not the non-positive message, and blocks the update |
| EditIngredient.NegativeAmountReportsNonPositive | coffeemaker2frontend/src/components/EditIngredient.js:54-82 | typing a negative number reports "Amount must be greater than 0" |
| EditIngredient.LoadedIngredientResubmits | coffeemaker2frontend/src/components/EditIngredient.js:36-103 | a loaded ingredient with a non-blank name and a positive amount resubmits unchanged under its own key |
| EditIngredient.SubmitChangesOnlyTarget | coffeemaker2frontend/src/components/EditIngredient.js:92-108 | a valid edit of a stored key replaces only that ingredient's name and amount and keeps keys unique; an edit of a key no longer stored fails with the general message; an invalid form sends nothing |
| Text.TrimStart | coffeemaker2frontend/src/components/Inventory.js:98 | the result is a suffix of the input that does not start with whitespace, and everything removed is whitespace |
| Text.TrimEnd | coffeemaker2frontend/src/components/Inventory.js:98 | the result is a prefix of the input that does not end with whitespace, and everything removed is whitespace |
| Text.TrimEmptyIffBlank | coffeemaker2frontend/src/components/EditIngredient.js:78 | a string trims to "" exactly when it is whitespace only |
| Text.NatToString | coffeemaker2backend/src/main/java/csc326/coffeemaker2/controllers/IngredientController.java:60 | a natural number renders as decimal digits with no leading zero, whose decimal value (`Text.DecValue`) is the number |
| Text.IntToString | coffeemaker2frontend/src/components/PurchaseRecipe.js:102 | an integer renders with a leading "-" exactly when it is negative, followed by the natural rendering of its absolute value: decimal digits with no leading zero denoting it |

## Left out

- HTTP and the UI are not modelled. This covers axios requests, rendering, modals and alerts as widgets, navigation, `useEffect` loading, console logging and `window.location.reload`. Requests end the model as values, and the loaded inventory is a parameter.
- StockDeduction.ApplyPlan: applies the PUTs in plan order. `Promise.all` sends them concurrently, so the write that lands last is not fixed. Whichever lands last wins, as `ApplyPlanLastWriteWins` states for plan order.
- Failed requests are not modelled, except the store's not-found answer to an edit ("Failed to update ingredient"). Left out are the invalid-payment alert after a failed purchase write, "Failed to load ingredient data", and the name-exists alert for any error other than a name clash.
- PurchaseRecipe.Pay: does not model the message of the error thrown for a negative amount. It is an unhandled rejection that nothing displays, so the outcome is only `StockWouldGoNegative`.
- Fractional amounts and prices are not modelled (the amount inputs have `step="0.1"`, and the frontend uses `parseFloat`). The backend stores integers, so every quantity is an `int`.
- Integer width is not modelled. Java `int` overflow, JavaScript number precision and `Long` keys are all unbounded integers here.
- JavaScript coercions are modelled only through their outcomes:
  - A blank purchase count behaves as 0.
  - A blank payment is `None`.
  - A typed-then-cleared ingredient amount on the recipe page is `Some(0)`.
  - Number inputs cannot hold non-numeric text.
- EditIngredient.ValidateForm: does not model the `isNaN` branch. The change handler turns NaN into the empty string, so that branch is unreachable.
- The `recipeIngredients && Array.isArray(...)` guards are not modelled: recipes from the backend always carry a list.
- PurchaseRecipe.js `setField` and the row handlers of both pages (tick, count, amount input) are not modelled as functions. Their results are the rows and fields passed to the modelled handlers.
- Recipes.RecipeEditor.OnSubmit: the list can be non-empty at submit time only after a failed POST, which is not modelled. Hence the fresh-list lemma.
- The recipe and recipe-ingredient controllers, `deleteRecipe`, and both "delete all" loops are outside the modelled files.
- IngredientStore.IngredientController.NewIngredient: assumes a non-null name and no client-supplied id. With a null name, the Java `equals` call at IngredientController.java:26 throws a NullPointerException once the table is non-empty, and on an empty table the null name is stored; a body carrying the `id` of a stored row reaches `save`, which overwrites that row instead of appending one. The model's `Ingredient` has a `string` name and the method takes no id, so neither input can be expressed.
- IngredientStore.IngredientController.UpdateIngredient: assumes a non-null name in the request body; a null name would be stored as is.
- IngredientStore: the repository's key generation is a counter `nextId`. The ghost invariant `Valid` (unique keys, all below `nextId`) stands for the database's identity column.
- StockDeduction.DeductAllSubtractsCombinedNeed: requires non-negative stored amounts and demands. The corrected deduction refuses only amounts it lowers, so a negative stored amount with no demand on it would not be refused.

## Findings

| source | as written | input that shows it | evidently intended | confidence | as-written member | corrected member |
|---|---|---|---|---|---|---|
| coffeemaker2frontend/src/components/PurchaseRecipe.js:182-210 | each update's new amount is computed from the pre-purchase snapshot and sent as an absolute amount, so two purchased recipes sharing an ingredient write the same key twice and the last write wins | Milk 120; one latte needing 100 Milk and one cortado needing 50: updates 20 and 70, Milk ends at 70 | the stock drops by the combined need of the purchase, and a purchase whose combined need exceeds the stock is refused | not executed; high | StockDeduction.SharedIngredientDeductedOnce | StockDeduction.DeductAllSubtractsCombinedNeed |
| coffeemaker2frontend/src/components/PurchaseRecipe.js:141-153 | the stock gate compares each recipe's need with the stock on its own | the same order passes the gate although together it needs 150 Milk against 120 | the gate compares each ingredient's combined need across the purchase with its stock | not executed; high | StockDeduction.SharedMilkOrderIsPriced | StockDeduction.DeductAllIffAggregated |

The purchase page's own model (`PurchaseRecipe`) stays as written. The corrected gate and deduction are `StockDeduction.AggregatedSufficient` and `StockDeduction.DeductAll`. `StockDeduction.AggregatedImpliesPerRecipe` shows the corrected gate only refuses more. `StockDeduction.CorrectedRefusesSharedShortfall` shows it refuses the order above.
