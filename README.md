# Stock management for Mercado Livre Full — verified model

This project models the logic of a small stock-management application for sellers on
Mercado Livre's "Full" fulfilment service. A Flask backend records stock levels,
manual stock adjustments and product listings synchronised from the marketplace. A
React dashboard lists products and stock, plans shipments to the fulfilment
warehouses, tracks them, shows the sales and activity history, and configures
low-stock alerts.

The model takes the fetched data as parameters. Database rows, JSON bodies and the
lists a page receives become sequences and maps. Timestamps become integers, or
ISO strings where the backend compares them as text. Each core file is modelled in
its own module:

- `StockAdjust` models the backend's stock-adjustment endpoint. It covers the
  validation order, the sign rule and the clamped new stock record.
- `Catalog` models the backend's product list and listing synchronisation. It also
  holds the product helpers that the pages share.
- `ActivityFeed` models the backend's activity feed: the kind selection and the
  newest-first sort.
- `AlertSettings` models the alert settings page: the threshold resolution rules, the
  low-stock list and the override handlers. The page state is a class.
- `ShipmentPlanning` models the shipment planning page: the keyed item list, its
  handlers and the submit validation. The page state is a class.
- `AdjustmentForm` models the stock adjustment page. It covers the form clamp,
  validation, the sign mapping, the preview and the success message. The form state
  is a class.
- `StockPage` and `ProductsPage` model the filter and sort pipelines, the summaries
  and the recommendations.
- `SalesHistory` models the sales history page: search, sort, totals and the
  per-product summary. It also models when the shown list is recomputed.
- `ActivityHistory` models the activity history page: newest-first order, the type
  and search filters, and the per-type counts.
- `ShipmentTracking` models the shipment tracking page: status labels and classes,
  the status filter, the timeline and the per-status actions.
- `Notifications` models the notification bell: read state, the unread count and
  the relative-age buckets.
- `SalesChart` models the sales chart: the pivot of per-product daily series into one
  row per date, sorted by date.

Four shared modules support the rest:

- `Wrappers` holds `Option`.
- `Seqs` holds `Filter`, `SumBy` and `Take`, with the counting and duplicate-free
  facts the summaries need.
- `Text` holds lower-casing and case-insensitive substring search.
- `Sorting` holds a stable comparator sort and the sort-header state shared by the
  pages.

## Model

| member | source | states |
|---|---|---|
| StockAdjust.FirstMissing | src/routes.py:854-857 | The reported field is the first required field, in the order product_id, adjustment_type, quantity, reason, that the body lacks; none is reported exactly when all four are present |
| StockAdjust.AdjustStock | src/routes.py:844-929 | The endpoint's answer for a body; it has no contract of its own: AdjustStockValidationOrder, AcceptedIsConsistent and FirstAdjustmentFromZero state what it answers |
| StockAdjust.HttpStatus | src/routes.py:850-872 | An unknown or foreign product answers 404; every other rejection answers 400 |
| StockAdjust.ParseTypeName | src/routes.py:864-867 | Each adjustment type parses back from its own name, and a value parses exactly when it is one of entrada_manual, saida_manual, perda, dano |
| StockAdjust.SignedQuantitySign | src/routes.py:874-878 | After the sign rule, a non-zero quantity is negative for saida_manual, perda and dano, positive for entrada_manual, and keeps its absolute value |
| StockAdjust.ApplyQuantity | src/routes.py:897-906 | The new record satisfies 0 <= available <= total and not_available = total - available |
| StockAdjust.ApplyQuantityExact | src/routes.py:897-898 | When available + q is not negative, available and total both move by exactly q and not_available is unchanged |
| StockAdjust.ApplyQuantityClamps | src/routes.py:897-898 | Taking out more than is available leaves 0 available and a total of max(0, total + q) |
| StockAdjust.EntryThenExit | src/routes.py:897-906 | On a consistent record, an entry of n followed by an exit of n restores the record |
| StockAdjust.AdjustStockValidationOrder | src/routes.py:850-872 | The endpoint runs its checks in order: empty body, missing field, product, type, quantity. Each rejection happens exactly when every earlier check passed and its own check fails, and a request is accepted exactly when all checks pass |
| StockAdjust.AcceptedIsConsistent | src/routes.py:874-929 | An accepted adjustment is for one of the user's products, stores a consistent record, and carries the quantity with its type's sign |
| StockAdjust.FirstAdjustmentFromZero | src/routes.py:884-898 | A product with no stock record gets a zero baseline created and starts from zeros, so an entry of n records n total and n available |
| Catalog.ProductJsonStock | src/routes.py:103-121 | A product without a stock record reports total, available and not_available 0 and last_updated null; otherwise last_updated is the record's timestamp. Id and title are copied |
| Catalog.ProductJson | src/routes.py:103-121 | One product's JSON; no contract of its own: ProductJsonStock states its stock figures and identity |
| Catalog.GetProducts | src/routes.py:100-123 | One JSON object per product row, in row order, each built from that product's latest record; a product missing from the records gets the zero stock |
| Catalog.Get | src/routes.py:159-164 | `dict.get(key, default)` on the item details: the default for a missing key, the text when present, and `None` exactly for a JSON `null` |
| Catalog.SyncItemKeys | src/routes.py:156-190 | An item fails exactly when it writes a `null` into a NOT NULL column: its title, its SKU when new (src/models.py:37-40), or, as written, the product id of a new listing's stock record (src/models.py:55). An existing listing fails only on a `null` title. Otherwise its id becomes a listing and the count grows by one exactly when the id was new |
| Catalog.SyncAllKeys | src/routes.py:151-176 | After a loop that succeeds, the listings are the old ones plus one per processed item id |
| Catalog.SyncPrefixFails | src/routes.py:151-176 | Once an item has failed the flush, the whole sync fails whatever follows |
| Catalog.SyncAllFails | src/routes.py:151-205 | The sync fails exactly when some item, reached with the sync still going, writes a `null` into a NOT NULL column: a title, a new listing's SKU, or (as written) a new listing's stock record with an inventory id whose stock call answered |
| Catalog.SyncWithoutNullsSucceeds | src/routes.py:151-195 | Corrected: with stock records linked to a flushed product id, a sync with no `null` title or SKU never fails |
| Catalog.NewListingWithStockFails | src/routes.py:160-195 | As written, the first sync of a new listing with inventory id INV1 and an answering stock call fails although nothing in the item is `null`; with a flushed id it stores the listing |
| Catalog.SyncLinksAgree | src/routes.py:151-195 | Wherever the sync as written succeeds, it stores exactly what the corrected sync stores |
| Catalog.SyncItem | src/routes.py:156-190 | One listing's upsert, or the failure a `null` title, SKU or stock-record product id causes; no contract of its own: SyncItemKeys, SyncKeepsSku, SyncFillsMissingSku and SyncItemLocal state it |
| Catalog.SyncAll | src/routes.py:151-176 | The loop over the item details as a fold that stays failed once an item fails; no contract of its own: SyncAllKeys, SyncAllFails and SyncProducts state it |
| Catalog.SyncProducts | src/routes.py:148-205 | Models the route as written: fails (rollback and 500) exactly when the fold with unflushed stock ids fails, so SyncAllFails gives its failure condition. Otherwise the loop's result equals processing the items in order, new_count + updated_count is the number of items, and new_count is the number of listings added |
| Catalog.SyncKeepsSku | src/routes.py:173-174 | A listing that already has an SKU keeps it through any sync that succeeds |
| Catalog.SyncFillsMissingSku | src/routes.py:170-174 | An existing listing without an SKU takes the item's non-empty seller_custom_field, or stays empty when it is empty, missing or `null`; it fails only on a `null` title |
| Catalog.SyncItemLocal | src/routes.py:171-172 | A successful sync of an item refreshes that listing's title (empty when missing) and inventory id and leaves every other listing unchanged |
| Catalog.LowStockProductsExact | frontend/dashboard/src/components/ShipmentPlanningPage.tsx:63-69 | The low-stock list holds exactly the products with fewer than 5 available |
| Catalog.LowStockProducts | frontend/dashboard/src/components/ShipmentPlanningPage.tsx:63-69 | The shared `available < 5` filter; no contract of its own: LowStockProductsExact and LowStockCount state it |
| Catalog.LowStockCount | estoque_ml_full_clean/estoque_ml_full/frontend/dashboard/src/components/StockPage.tsx:196 | The low-stock list is as long as the number of positions whose product has fewer than 5 available |
| Catalog.TotalsSplitStock | estoque_ml_full_clean/estoque_ml_full/frontend/dashboard/src/components/StockPage.tsx:197-198 | With consistent stock records, the available and the unavailable totals add up to the summed total stock |
| Catalog.FindById | frontend/dashboard/src/components/StockAdjustmentPage.tsx:154-156 | The found product is the first in the list with the id; nothing is found exactly when no product has it |
| Catalog.SearchTitleOrSkuExact | frontend/dashboard/src/components/StockAdjustmentPage.tsx:149-152 | The search keeps exactly the products whose lower-cased title or SKU contains the lower-cased term; an empty term keeps the whole list |
| Catalog.SearchTitleOrSku | frontend/dashboard/src/components/StockAdjustmentPage.tsx:149-152 | The title-or-SKU search, also the product list of frontend/dashboard/src/components/ShipmentPlanningPage.tsx:203-206; no contract of its own: SearchTitleOrSkuExact states it |
| ActivityFeed.SaleActivities | src/routes.py:608-633 | One sale activity per queried sale, in query order |
| ActivityFeed.AdjustmentActivities | src/routes.py:636-662 | One adjustment activity per queried adjustment, in query order |
| ActivityFeed.StockActivities | src/routes.py:665-690 | One stock-change activity per queried stock record, in query order |
| ActivityFeed.Collected | src/routes.py:605-690 | The list before the sort; no contract of its own: CollectedKinds states it |
| ActivityFeed.GetActivities | src/routes.py:605-693 | The appending loops and the in-place sort give the collected activities sorted newest first by timestamp text, as a permutation of what was collected |
| ActivityFeed.CollectedKinds | src/routes.py:605-690 | A kind appears only when the type is 'all' or that kind, and every sale, adjustment and stock row of a selected kind appears; the count is the sum of the selected query sizes, and an unknown type gives an empty feed |
| ActivityFeed.FeedOrderedAndFiltered | src/routes.py:693 | The sorted feed holds only selected kinds, its timestamps do not increase, and it is no longer than the three queries together |
| ActivityFeed.FeedHoldsWantedRows | src/routes.py:605-693 | Every sale, adjustment and stock row of a selected kind is in the sorted feed |
| AlertSettings.ResolveThreshold | estoque_ml_full_clean/estoque_ml_full/frontend/dashboard/src/components/AlertSettingsPage.tsx:164-168 | getProductThreshold: the override's threshold when it is not undefined, otherwise the global threshold |
| AlertSettings.ListThreshold | estoque_ml_full_clean/estoque_ml_full/frontend/dashboard/src/components/AlertSettingsPage.tsx:50 | The list's rule `override \|\| global`: the override only when it is truthy, otherwise the global threshold |
| AlertSettings.LowStockListExact | estoque_ml_full_clean/estoque_ml_full/frontend/dashboard/src/components/AlertSettingsPage.tsx:46-55 | The low-stock list keeps exactly the products whose available stock is at or below the list's threshold, and is no longer than the product list |
| AlertSettings.LowStockList | estoque_ml_full_clean/estoque_ml_full/frontend/dashboard/src/components/AlertSettingsPage.tsx:46-55 | The page's low-stock list; no contract of its own: LowStockListExact and ListMatchesHighlight state it |
| AlertSettings.RulesAgree | estoque_ml_full_clean/estoque_ml_full/frontend/dashboard/src/components/AlertSettingsPage.tsx:164-168 | When the override is neither 0 nor NaN, the list's rule at line 50 and getProductThreshold give the same threshold |
| AlertSettings.RulesDisagreeAtZero | estoque_ml_full_clean/estoque_ml_full/frontend/dashboard/src/components/AlertSettingsPage.tsx:49-51 | With an override of 0, a product with some stock at or below the global threshold is listed as low but not highlighted: the two rules differ |
| AlertSettings.ListMatchesHighlight | estoque_ml_full_clean/estoque_ml_full/frontend/dashboard/src/components/AlertSettingsPage.tsx:46-55 | When no override is 0 or NaN, the low-stock list is exactly the highlighted products, in input order |
| AlertSettings.ChangeSettingLocal | estoque_ml_full_clean/estoque_ml_full/frontend/dashboard/src/components/AlertSettingsPage.tsx:123-131 | A change adds or updates only that product's entry. A new entry is a copy of the global settings with the changed field, and other products' entries are unchanged |
| AlertSettings.ChangeSetting | estoque_ml_full_clean/estoque_ml_full/frontend/dashboard/src/components/AlertSettingsPage.tsx:123-131 | One override change; no contract of its own: ChangeSettingLocal and SetThenResolve state it |
| AlertSettings.SetThenResolve | estoque_ml_full_clean/estoque_ml_full/frontend/dashboard/src/components/AlertSettingsPage.tsx:274-278 | A set threshold becomes the product's resolved threshold; a cleared input (undefined) makes it resolve to the global threshold; other products resolve as before |
| AlertSettings.ResetThenResolve | estoque_ml_full_clean/estoque_ml_full/frontend/dashboard/src/components/AlertSettingsPage.tsx:133-139 | Reset removes the product's key. Both rules then give the global threshold for it, and other products resolve as before |
| AlertSettings.ResetSetting | estoque_ml_full_clean/estoque_ml_full/frontend/dashboard/src/components/AlertSettingsPage.tsx:133-139 | One override reset; no contract of its own: ResetThenResolve states it |
| AlertSettings.AlertSettingsPage.constructor | estoque_ml_full_clean/estoque_ml_full/frontend/dashboard/src/components/AlertSettingsPage.tsx:28-39 | The initial state: no products, the default global settings (threshold 5), no overrides |
| AlertSettings.AlertSettingsPage.RefreshLowStock | estoque_ml_full_clean/estoque_ml_full/frontend/dashboard/src/components/AlertSettingsPage.tsx:46-55 | The effect recomputes the low-stock list from the current products and settings, and does nothing while there are no products |
| AlertSettings.AlertSettingsPage.SetProducts | estoque_ml_full_clean/estoque_ml_full/frontend/dashboard/src/components/AlertSettingsPage.tsx:61 | Loading products replaces the list, and the effect refreshes the low-stock list |
| AlertSettings.AlertSettingsPage.ProductSettingChange | estoque_ml_full_clean/estoque_ml_full/frontend/dashboard/src/components/AlertSettingsPage.tsx:123-131 | The handler replaces the overrides by the changed map, and the effect refreshes the list |
| AlertSettings.AlertSettingsPage.ResetProductSettings | estoque_ml_full_clean/estoque_ml_full/frontend/dashboard/src/components/AlertSettingsPage.tsx:133-139 | The handler deletes the product's override, and the effect refreshes the list |
| ShipmentPlanning.Increment | frontend/dashboard/src/components/ShipmentPlanningPage.tsx:86-97 | Adding a product that is already listed raises only that item's quantity by one; the length and order stay |
| ShipmentPlanning.SetQuantity | frontend/dashboard/src/components/ShipmentPlanningPage.tsx:120-127 | A positive quantity change sets only the matching item's quantity; the length and order stay |
| ShipmentPlanning.AddProductSpec | frontend/dashboard/src/components/ShipmentPlanningPage.tsx:84-105 | A new product is appended with quantity 1. A listed one is incremented in place. Either way the total rises by one |
| ShipmentPlanning.AddProduct | frontend/dashboard/src/components/ShipmentPlanningPage.tsx:84-105 | The add handler on the item list; no contract of its own: AddProductSpec and AddKeepsValid state it |
| ShipmentPlanning.RemoveProductMembers | frontend/dashboard/src/components/ShipmentPlanningPage.tsx:107-112 | Remove keeps exactly the items of other products, in order; removing an unlisted product changes nothing |
| ShipmentPlanning.RemoveProduct | frontend/dashboard/src/components/ShipmentPlanningPage.tsx:107-112 | The remove handler on the item list; no contract of its own: RemoveProductMembers and RemoveKeepsValid state it |
| ShipmentPlanning.AddKeepsValid | frontend/dashboard/src/components/ShipmentPlanningPage.tsx:84-105 | Adding keeps product ids unique and every quantity at least 1 |
| ShipmentPlanning.RemoveKeepsValid | frontend/dashboard/src/components/ShipmentPlanningPage.tsx:107-112 | Removing keeps product ids unique and every quantity at least 1 |
| ShipmentPlanning.ChangeQuantitySpec | frontend/dashboard/src/components/ShipmentPlanningPage.tsx:114-128 | A change to 0 or less is exactly a removal. A positive change updates only the listed item and is a no-op for an unlisted one. The list stays valid |
| ShipmentPlanning.ChangeQuantity | frontend/dashboard/src/components/ShipmentPlanningPage.tsx:114-128 | The quantity handler on the item list; no contract of its own: ChangeQuantitySpec states it |
| ShipmentPlanning.TotalAtLeastEntries | frontend/dashboard/src/components/ShipmentPlanningPage.tsx:199-201 | With quantities of at least 1, getTotalItems is at least the number of items |
| ShipmentPlanning.TotalItems | frontend/dashboard/src/components/ShipmentPlanningPage.tsx:199-201 | The total units; no contract of its own: TotalAtLeastEntries states it |
| ShipmentPlanning.ValidateSubmit | frontend/dashboard/src/components/ShipmentPlanningPage.tsx:143-151 | Submit is rejected for an empty item list (checked first), then for an empty destination, and passes exactly when both are present |
| ShipmentPlanning.ShipmentPlanningPage.constructor | frontend/dashboard/src/components/ShipmentPlanningPage.tsx:44-50 | A new draft with no items, an empty destination and empty notes |
| ShipmentPlanning.ShipmentPlanningPage.SetProducts | frontend/dashboard/src/components/ShipmentPlanningPage.tsx:63-69 | Loading products replaces the list, and the effect sets the low-stock list to the products with fewer than 5 available |
| ShipmentPlanning.ShipmentPlanningPage.HandleAddProduct | frontend/dashboard/src/components/ShipmentPlanningPage.tsx:84-105 | The items become the added list, the total rises by one, and the item invariant holds |
| ShipmentPlanning.ShipmentPlanningPage.HandleRemoveProduct | frontend/dashboard/src/components/ShipmentPlanningPage.tsx:107-112 | The product's item is gone and the invariant holds |
| ShipmentPlanning.ShipmentPlanningPage.HandleQuantityChange | frontend/dashboard/src/components/ShipmentPlanningPage.tsx:114-128 | The items become the changed list and the invariant holds |
| ShipmentPlanning.ShipmentPlanningPage.HandleSubmit | frontend/dashboard/src/components/ShipmentPlanningPage.tsx:135-185 | A rejected submit changes nothing. An accepted one resets to a draft with no items, no destination and no notes, and keeps the products; the refresh of line 185 lands later as a separate `SetProducts` |
| AdjustmentForm.ClampQuantity | frontend/dashboard/src/components/StockAdjustmentPage.tsx:67-70 | The stored quantity is at least 1: the parsed number when it is at least 1, otherwise 1 (also for NaN) |
| AdjustmentForm.Validate | frontend/dashboard/src/components/StockAdjustmentPage.tsx:84-97 | Rejections come in order: no product, then a quantity of 0 or less, then a blank reason. The form passes exactly when none applies |
| AdjustmentForm.SubmittedQuantity | frontend/dashboard/src/components/StockAdjustmentPage.tsx:106-108 | The sent quantity is -\|q\| for saida_manual, perda and dano, and \|q\| otherwise |
| AdjustmentForm.SignAgreesWithBackend | frontend/dashboard/src/components/StockAdjustmentPage.tsx:106-108 | The page's outgoing types are the endpoint's. The endpoint's sign rule leaves the page's signed quantity unchanged, and gives the same result on the raw quantity |
| AdjustmentForm.SubmissionMatchesPreview | frontend/dashboard/src/components/StockAdjustmentPage.tsx:308-313 | A valid form for an owned product is accepted by the endpoint with the page's signed quantity. When the listed stock is the latest record, the stored available stock equals the preview |
| AdjustmentForm.Preview | frontend/dashboard/src/components/StockAdjustmentPage.tsx:308-313 | The "after adjustment" figure; no contract of its own: SubmissionMatchesPreview ties it to the endpoint's new record |
| AdjustmentForm.SuccessVerbAsWrittenIgnoresType | frontend/dashboard/src/components/StockAdjustmentPage.tsx:128 | As written, an outgoing adjustment is reported as "aumentado" although the quantity sent is negative |
| AdjustmentForm.SuccessVerbFollowsType | frontend/dashboard/src/components/StockAdjustmentPage.tsx:128 | Corrected: "reduzido" exactly for the outgoing types, and "aumentado" exactly when the sent quantity is positive |
| AdjustmentForm.SuccessVerbAsWritten | frontend/dashboard/src/components/StockAdjustmentPage.tsx:128 | The message verb as written; no contract of its own: SuccessVerbAsWrittenIgnoresType states it |
| AdjustmentForm.SuccessVerb | frontend/dashboard/src/components/StockAdjustmentPage.tsx:128 | The corrected message verb; no contract of its own: SuccessVerbFollowsType states it |
| AdjustmentForm.Reselect | frontend/dashboard/src/components/StockAdjustmentPage.tsx:52-54 | After a fetch the selection is the first fetched product if there is one, and the old selection otherwise |
| AdjustmentForm.RefreshDropsSelection | frontend/dashboard/src/components/StockAdjustmentPage.tsx:132-139 | With products 1 and 2 listed and product 2 selected, the refresh after a success selects product 1 |
| AdjustmentForm.KeepSelection | frontend/dashboard/src/components/StockAdjustmentPage.tsx:52-54 | The corrected reselection; no contract of its own: KeepSelectionSpec states it |
| AdjustmentForm.KeepSelectionSpec | frontend/dashboard/src/components/StockAdjustmentPage.tsx:132-139 | The corrected refresh keeps a selection that is still listed, leaves a listed product selected whenever one is fetched, and on the first load selects as written |
| AdjustmentForm.AdjustmentFormState.constructor | frontend/dashboard/src/components/StockAdjustmentPage.tsx:34-39 | The initial form: no product, entrada_manual, quantity 1, empty reason |
| AdjustmentForm.AdjustmentFormState.ProductsLoaded | frontend/dashboard/src/components/StockAdjustmentPage.tsx:45-62 | A fetch that returns products selects the first of them, whatever was selected; an empty fetch keeps the selection; nothing else changes |
| AdjustmentForm.AdjustmentFormState.SelectProduct | frontend/dashboard/src/components/StockAdjustmentPage.tsx:202 | Clicking a product selects it; nothing else changes |
| AdjustmentForm.AdjustmentFormState.QuantityInput | frontend/dashboard/src/components/StockAdjustmentPage.tsx:64-74 | The quantity field stores the clamped value; nothing else changes |
| AdjustmentForm.AdjustmentFormState.TypeInput | frontend/dashboard/src/components/StockAdjustmentPage.tsx:64-74 | The type field stores the selected value; nothing else changes |
| AdjustmentForm.AdjustmentFormState.ReasonInput | frontend/dashboard/src/components/StockAdjustmentPage.tsx:64-74 | The reason field stores the typed text; nothing else changes |
| AdjustmentForm.AdjustmentFormState.Submit | frontend/dashboard/src/components/StockAdjustmentPage.tsx:76-146 | Any previous success message is cleared. An invalid form is not sent and is otherwise unchanged. A valid one sends the signed request to the endpoint. On acceptance the message verb is the as-written one, the form resets, and the refresh then selects the first fetched product; on rejection the form is unchanged |
| StockPage.NewHeader | estoque_ml_full_clean/estoque_ml_full/frontend/dashboard/src/components/StockPage.tsx:28-29 | The table starts sorted by available, descending, and a new column starts descending |
| StockPage.SortedOnFigure | estoque_ml_full_clean/estoque_ml_full/frontend/dashboard/src/components/StockPage.tsx:79-85 | A list sorted on a stock figure is ordered by that figure's value, ascending or descending |
| StockPage.FilteredProductsSpec | estoque_ml_full_clean/estoque_ml_full/frontend/dashboard/src/components/StockPage.tsx:73-85 | The table holds exactly the products matching title or SKU (and under 5 available with the switch on), ordered by the chosen figure and direction |
| StockPage.FilteredProducts | estoque_ml_full_clean/estoque_ml_full/frontend/dashboard/src/components/StockPage.tsx:73-85 | The shown table; no contract of its own: FilteredProductsSpec and LowStockSwitchNarrows state it |
| StockPage.LowStockSwitchNarrows | estoque_ml_full_clean/estoque_ml_full/frontend/dashboard/src/components/StockPage.tsx:74-77 | With the switch on, the table is the switch-off table cut down to products under 5 available, in the same order |
| StockPage.StockSummarySpec | estoque_ml_full_clean/estoque_ml_full/frontend/dashboard/src/components/StockPage.tsx:195-198 | The summary counts the products and the positions with fewer than 5 available; with consistent records the available and unavailable totals add up to the total stock; sorting the table changes no figure |
| StockPage.StockSummary | estoque_ml_full_clean/estoque_ml_full/frontend/dashboard/src/components/StockPage.tsx:195-198 | The four summary figures; no contract of its own: StockSummarySpec states them |
| StockPage.TotalsNotNegative | estoque_ml_full_clean/estoque_ml_full/frontend/dashboard/src/components/StockPage.tsx:195-198 | With consistent stock records, the available and not-available totals are not negative |
| StockPage.RecommendSpec | estoque_ml_full_clean/estoque_ml_full/frontend/dashboard/src/components/StockPage.tsx:203-216 | The card lists a prefix of the low-stock products of at most 5. "e mais" appears exactly when there are more than 5, and counts the rest |
| StockPage.Recommend | estoque_ml_full_clean/estoque_ml_full/frontend/dashboard/src/components/StockPage.tsx:203-216 | The recommendations card; no contract of its own: RecommendSpec states it |
| ProductsPage.NewHeader | estoque_ml_full_clean/estoque_ml_full/frontend/dashboard/src/components/ProductsPage.tsx:27-28 | The list starts sorted by id, ascending, and a new column starts ascending |
| ProductsPage.SortedProductsSpec | estoque_ml_full_clean/estoque_ml_full/frontend/dashboard/src/components/ProductsPage.tsx:58-72 | The sorted list is a permutation of the products. The 'stock.available' column orders by the nested available figure, and the id column by id |
| ProductsPage.SortedProducts | estoque_ml_full_clean/estoque_ml_full/frontend/dashboard/src/components/ProductsPage.tsx:58-72 | The sorted copy; no contract of its own: SortedProductsSpec states it |
| ProductsPage.FilteredProductsSpec | estoque_ml_full_clean/estoque_ml_full/frontend/dashboard/src/components/ProductsPage.tsx:74-78 | The search keeps exactly the products whose title, SKU or listing id contains the term. It equals sorting the matches, so the table stays sorted |
| ProductsPage.FilteredProducts | estoque_ml_full_clean/estoque_ml_full/frontend/dashboard/src/components/ProductsPage.tsx:74-78 | The shown table; no contract of its own: FilteredProductsSpec and EmptySearchShowsAll state it |
| ProductsPage.EmptySearchShowsAll | estoque_ml_full_clean/estoque_ml_full/frontend/dashboard/src/components/ProductsPage.tsx:74-78 | An empty search shows the whole sorted list |
| ProductsPage.ProductsSummarySpec | estoque_ml_full_clean/estoque_ml_full/frontend/dashboard/src/components/ProductsPage.tsx:177-179 | The summary counts the products and the positions with fewer than 5 available, its available total is not negative when no product's is, and sorting changes no figure |
| ProductsPage.ProductsSummary | estoque_ml_full_clean/estoque_ml_full/frontend/dashboard/src/components/ProductsPage.tsx:177-179 | The three summary figures; no contract of its own: ProductsSummarySpec states them |
| SalesHistory.SearchSalesSpec | estoque_ml_full_clean/estoque_ml_full/frontend/dashboard/src/components/SalesHistoryPage.tsx:78-85 | A sale is kept exactly when its product title or order id contains the term; an empty term keeps every sale in order |
| SalesHistory.SearchSales | estoque_ml_full_clean/estoque_ml_full/frontend/dashboard/src/components/SalesHistoryPage.tsx:78-85 | The search step; no contract of its own: SearchSalesSpec states it |
| SalesHistory.DisplayedSpec | estoque_ml_full_clean/estoque_ml_full/frontend/dashboard/src/components/SalesHistoryPage.tsx:87-98 | The shown list is a permutation of the searched sales, ordered by timestamp or units in the header's direction |
| SalesHistory.Displayed | estoque_ml_full_clean/estoque_ml_full/frontend/dashboard/src/components/SalesHistoryPage.tsx:78-100 | The shown list; no contract of its own: DisplayedSpec states it |
| SalesHistory.TotalsIgnoreOrder | estoque_ml_full_clean/estoque_ml_full/frontend/dashboard/src/components/SalesHistoryPage.tsx:128-134 | Total units and total revenue do not depend on the sort |
| SalesHistory.TotalSales | estoque_ml_full_clean/estoque_ml_full/frontend/dashboard/src/components/SalesHistoryPage.tsx:128-130 | getTotalSales; no contract of its own: TotalsIgnoreOrder and GroupSpec state it |
| SalesHistory.TotalRevenue | estoque_ml_full_clean/estoque_ml_full/frontend/dashboard/src/components/SalesHistoryPage.tsx:132-134 | getTotalRevenue; no contract of its own: TotalsIgnoreOrder and RevenueNotNegative state it |
| SalesHistory.RevenueNotNegative | estoque_ml_full_clean/estoque_ml_full/frontend/dashboard/src/components/SalesHistoryPage.tsx:132-134 | A sale without a price adds no revenue, and with non-negative prices and units the revenue is not negative |
| SalesHistory.AddSaleSpec | estoque_ml_full_clean/estoque_ml_full/frontend/dashboard/src/components/SalesHistoryPage.tsx:139-146 | One step of the forEach keeps the summary well formed and adds the sale's units to the summed entries |
| SalesHistory.Group | estoque_ml_full_clean/estoque_ml_full/frontend/dashboard/src/components/SalesHistoryPage.tsx:136-146 | The summary object after the forEach; no contract of its own: GroupSpec and GroupTotals state it |
| SalesHistory.GroupTotals | estoque_ml_full_clean/estoque_ml_full/frontend/dashboard/src/components/SalesHistoryPage.tsx:139-146 | Each entry of the summary holds the units and the revenue of exactly the sales with that title |
| SalesHistory.GroupSpec | estoque_ml_full_clean/estoque_ml_full/frontend/dashboard/src/components/SalesHistoryPage.tsx:136-146 | The summary has one entry per sold title and no other, each entry holds the units and revenue of exactly that title's sales, and the entries' units sum to getTotalSales |
| SalesHistory.TopProducts | estoque_ml_full_clean/estoque_ml_full/frontend/dashboard/src/components/SalesHistoryPage.tsx:148-151 | The sorted, cut entries; no contract of its own: TopProductsSpec states it |
| SalesHistory.TopOfEntries | estoque_ml_full_clean/estoque_ml_full/frontend/dashboard/src/components/SalesHistoryPage.tsx:148-151 | The top five of a well-formed summary are min(5, number of titles) distinct entries of the summary, most units first |
| SalesHistory.TopOfOmitted | estoque_ml_full_clean/estoque_ml_full/frontend/dashboard/src/components/SalesHistoryPage.tsx:148-151 | A title left out of the top five sold no more units than any title shown |
| SalesHistory.ProductSalesSummary | estoque_ml_full_clean/estoque_ml_full/frontend/dashboard/src/components/SalesHistoryPage.tsx:136-151 | The forEach loop, the sort and the slice give the top list TopProductsSpec describes: min(5, number of titles) distinct sold titles with their own totals, most units first, none left out with more units |
| SalesHistory.TopProductsSpec | estoque_ml_full_clean/estoque_ml_full/frontend/dashboard/src/components/SalesHistoryPage.tsx:148-151 | The top list has min(5, number of titles) entries, each a distinct sold title with the units and revenue of its sales, units do not increase down the list, and no omitted title sold more units than one shown |
| SalesHistory.SortClickAsWrittenIsStale | estoque_ml_full_clean/estoque_ml_full/frontend/dashboard/src/components/SalesHistoryPage.tsx:114-121 | As written, clicking "Quantidade" on a list sorted by date changes the header but leaves the list sorted by date |
| SalesHistory.SortClickAsWritten | estoque_ml_full_clean/estoque_ml_full/frontend/dashboard/src/components/SalesHistoryPage.tsx:114-121 | The header click as written; no contract of its own: SortClickAsWrittenIsStale states it |
| SalesHistory.SortClickKeepsCurrent | estoque_ml_full_clean/estoque_ml_full/frontend/dashboard/src/components/SalesHistoryPage.tsx:114-121 | Corrected: after a click the list is re-sorted by the clicked column and holds the same sales |
| SalesHistory.SortClick | estoque_ml_full_clean/estoque_ml_full/frontend/dashboard/src/components/SalesHistoryPage.tsx:114-121 | The corrected header click; no contract of its own: SortClickKeepsCurrent states it |
| SalesHistory.SearchInputSpec | estoque_ml_full_clean/estoque_ml_full/frontend/dashboard/src/components/SalesHistoryPage.tsx:174-180 | Corrected: after typing, the list holds exactly the generated sales that match, in header order |
| SalesHistory.SearchInput | estoque_ml_full_clean/estoque_ml_full/frontend/dashboard/src/components/SalesHistoryPage.tsx:174-180 | The corrected search input; no contract of its own: SearchInputSpec states it |
| SalesHistory.PeriodChange | estoque_ml_full_clean/estoque_ml_full/frontend/dashboard/src/components/SalesHistoryPage.tsx:23-27 | A new period; no contract of its own: PeriodChangeSpec states it |
| SalesHistory.PeriodChangeSpec | estoque_ml_full_clean/estoque_ml_full/frontend/dashboard/src/components/SalesHistoryPage.tsx:23-100 | After a new period the shown list is current and holds exactly the new sales that match the search term |
| ActivityHistory.TypeNameInjective | frontend/dashboard/src/components/ActivityHistoryPage.tsx:7 | The four type names are distinct, so a name selects exactly one type |
| ActivityHistory.FilterActivities | frontend/dashboard/src/components/ActivityHistoryPage.tsx:119-135 | The sort and the reassigned filter steps give the newest-first list cut down to the shown activities. It is still newest first and holds exactly the generated activities of the chosen type that match the search |
| ActivityHistory.StepsKeepShown | frontend/dashboard/src/components/ActivityHistoryPage.tsx:124-135 | The type step and the search step, each skipped for 'all' or an empty term, together keep exactly the shown activities |
| ActivityHistory.NoFilterShowsAll | frontend/dashboard/src/components/ActivityHistoryPage.tsx:124-135 | With 'all' and an empty search, every activity is shown, newest first |
| ActivityHistory.CountsSumToTotal | frontend/dashboard/src/components/ActivityHistoryPage.tsx:258-262 | The four per-type counts add up to the total |
| ActivityHistory.ActivitySummary | frontend/dashboard/src/components/ActivityHistoryPage.tsx:258-262 | The per-type counts; no contract of its own: CountsSumToTotal and TypeSelectionCounts state them |
| ActivityHistory.TypeSelectionCounts | frontend/dashboard/src/components/ActivityHistoryPage.tsx:258-262 | Under a type selection, that type's count is the whole list and every other count is 0 |
| ShipmentTracking.StatusLabel | frontend/dashboard/src/components/ShipmentTrackingPage.tsx:137-152 | An unknown status is shown as it is |
| ShipmentTracking.StatusClass | frontend/dashboard/src/components/ShipmentTrackingPage.tsx:154-169 | The class is empty exactly for an unknown status |
| ShipmentTracking.LabelsDistinguishStatuses | frontend/dashboard/src/components/ShipmentTrackingPage.tsx:137-169 | Known statuses get distinct labels and distinct classes, and none is shown as its raw value |
| ShipmentTracking.TotalItemsBounds | frontend/dashboard/src/components/ShipmentTrackingPage.tsx:171-173 | With positive quantities, the total is at least the number of items and at least any one quantity |
| ShipmentTracking.TotalItems | frontend/dashboard/src/components/ShipmentTrackingPage.tsx:171-173 | The shipment's total units; no contract of its own: TotalItemsBounds states it |
| ShipmentTracking.FilteredShipments | frontend/dashboard/src/components/ShipmentTrackingPage.tsx:175-177 | 'all' returns every shipment; any other selection returns only shipments with that status |
| ShipmentTracking.FilteredShipmentsSpec | frontend/dashboard/src/components/ShipmentTrackingPage.tsx:175-177 | A selection keeps exactly the shipments with that status, in order (filtering distributes over concatenation) |
| ShipmentTracking.TimelineIsPrefix | frontend/dashboard/src/components/ShipmentTrackingPage.tsx:324-354 | The completed steps are exactly the first Progress(status) ones. A cancelled shipment has none |
| ShipmentTracking.StepCompleted | frontend/dashboard/src/components/ShipmentTrackingPage.tsx:324-354 | Which timeline steps are marked completed; no contract of its own: TimelineIsPrefix and TimelineMonotone state it |
| ShipmentTracking.TimelineMonotone | frontend/dashboard/src/components/ShipmentTrackingPage.tsx:324-354 | A completed step implies every earlier step is completed |
| ShipmentTracking.Actions | frontend/dashboard/src/components/ShipmentTrackingPage.tsx:360-368 | Close is always offered; edit and confirm exactly for draft; cancel exactly for pending |
| ShipmentTracking.ActionsFollowTimeline | frontend/dashboard/src/components/ShipmentTrackingPage.tsx:324-368 | Edit and cancel are never both offered. A shipment on its way, delivered or cancelled offers only closing |
| Notifications.UnreadCountZero | estoque_ml_full_clean/estoque_ml_full/frontend/dashboard/src/components/NotificationsComponent.tsx:27-31 | The unread count is 0 exactly when every notification is read |
| Notifications.UnreadCount | estoque_ml_full_clean/estoque_ml_full/frontend/dashboard/src/components/NotificationsComponent.tsx:27-31 | The unread badge count; no contract of its own: UnreadCountZero, MarkReadCount and MarkAllReadSpec state it |
| Notifications.MarkRead | estoque_ml_full_clean/estoque_ml_full/frontend/dashboard/src/components/NotificationsComponent.tsx:104-112 | Exactly the notifications with that id become read. Every other field, the order and the length stay |
| Notifications.MarkAllRead | estoque_ml_full_clean/estoque_ml_full/frontend/dashboard/src/components/NotificationsComponent.tsx:114-118 | Every notification becomes read and nothing else changes |
| Notifications.MarkReadIdempotent | estoque_ml_full_clean/estoque_ml_full/frontend/dashboard/src/components/NotificationsComponent.tsx:104-112 | Marking the same id twice is marking it once |
| Notifications.MarkReadCount | estoque_ml_full_clean/estoque_ml_full/frontend/dashboard/src/components/NotificationsComponent.tsx:104-112 | Marking never raises the unread count. It lowers it exactly when an unread notification has that id |
| Notifications.MarkAllReadSpec | estoque_ml_full_clean/estoque_ml_full/frontend/dashboard/src/components/NotificationsComponent.tsx:114-118 | After marking all, the unread count is 0 and marking any one id changes nothing |
| Notifications.NotificationCenter.constructor | estoque_ml_full_clean/estoque_ml_full/frontend/dashboard/src/components/NotificationsComponent.tsx:17-21 | No notifications, a count of 0, the panel closed |
| Notifications.NotificationCenter.Loaded | estoque_ml_full_clean/estoque_ml_full/frontend/dashboard/src/components/NotificationsComponent.tsx:27-31 | Loading replaces the list and the effect recounts the unread notifications |
| Notifications.NotificationCenter.Toggle | estoque_ml_full_clean/estoque_ml_full/frontend/dashboard/src/components/NotificationsComponent.tsx:100-102 | The panel opens or closes; the list and the count stay |
| Notifications.NotificationCenter.MarkAsRead | estoque_ml_full_clean/estoque_ml_full/frontend/dashboard/src/components/NotificationsComponent.tsx:104-112 | The list becomes the marked list, and the recounted badge does not grow |
| Notifications.NotificationCenter.MarkAllAsRead | estoque_ml_full_clean/estoque_ml_full/frontend/dashboard/src/components/NotificationsComponent.tsx:114-118 | Every notification is read and the badge count is 0 |
| Notifications.FormatAge | estoque_ml_full_clean/estoque_ml_full/frontend/dashboard/src/components/NotificationsComponent.tsx:120-134 | Under an hour gives whole minutes (floor). Under a day gives hours 1..23 (floor), plural exactly from 2. Otherwise the absolute date |
| Notifications.FormatAgeMonotone | estoque_ml_full_clean/estoque_ml_full/frontend/dashboard/src/components/NotificationsComponent.tsx:120-134 | An older notification never shows a finer bucket, nor fewer minutes or hours |
| SalesChart.ProductWrites | frontend/dashboard/src/components/SalesChart.tsx:69-76 | The inner forEach writes, in order, one (date, title, quantity) per daily entry of the product |
| SalesChart.WritesMembers | frontend/dashboard/src/components/SalesChart.tsx:67-77 | A write happens exactly for each (product, daily entry) pair of the input |
| SalesChart.LastValueSpec | frontend/dashboard/src/components/SalesChart.tsx:75 | A cell's value is the quantity of the last write to that date and title, and absent when there is none |
| SalesChart.PivotWellFormed | frontend/dashboard/src/components/SalesChart.tsx:64-77 | The date map keeps one row per date, in first-seen order, with no duplicates |
| SalesChart.Pivot | frontend/dashboard/src/components/SalesChart.tsx:64-77 | The date map after the nested forEach; no contract of its own: PivotWellFormed, PivotDates and PivotCells state it |
| SalesChart.PivotDates | frontend/dashboard/src/components/SalesChart.tsx:70-72 | The map has a row exactly for the dates that appear in some daily entry |
| SalesChart.PivotCells | frontend/dashboard/src/components/SalesChart.tsx:75 | Each cell of the map is the last value written to it |
| SalesChart.RowsOf | frontend/dashboard/src/components/SalesChart.tsx:80 | One chart row per date of the map, carrying that date and its values |
| SalesChart.ChartSpec | frontend/dashboard/src/components/SalesChart.tsx:64-82 | The chart has exactly one row per distinct date in the input, ordered by date ascending. Each row's value for a title is the last written quantity |
| SalesChart.Chart | frontend/dashboard/src/components/SalesChart.tsx:64-82 | The chart rows; no contract of its own: ChartSpec states it |
| SalesChart.AddDailyData | frontend/dashboard/src/components/SalesChart.tsx:69-76 | The inner loop over one product's daily data takes the date map to the pivot of all writes so far plus that product's writes |
| SalesChart.SalesChartState.constructor | frontend/dashboard/src/components/SalesChart.tsx:33 | The chart starts empty |
| SalesChart.SalesChartState.ProcessChartData | frontend/dashboard/src/components/SalesChart.tsx:60-85 | Empty input leaves the chart unchanged. Otherwise the nested loops and the sort store the specified chart |
| Sorting.SortBy | estoque_ml_full_clean/estoque_ml_full/frontend/dashboard/src/components/StockPage.tsx:79-85 | The comparator sort returns a permutation of its input ordered by the key in the chosen direction |
| Sorting.SortByStable | estoque_ml_full_clean/estoque_ml_full/frontend/dashboard/src/components/ProductsPage.tsx:58-72 | The sort is stable: elements with equal keys keep their relative order |
| Sorting.FilterSortCommute | estoque_ml_full_clean/estoque_ml_full/frontend/dashboard/src/components/ProductsPage.tsx:58-78 | Filtering a sorted list equals sorting the filtered list |
| Sorting.NextSort | estoque_ml_full_clean/estoque_ml_full/frontend/dashboard/src/components/StockPage.tsx:62-71 | handleSort: the clicked field becomes the sort field; the direction flips on the active field and resets to the page's default on a new one |
| Sorting.NextSortTwice | estoque_ml_full_clean/estoque_ml_full/frontend/dashboard/src/components/StockPage.tsx:62-71 | Two clicks on the active column restore the sort state |
| Sorting.SortHeader.HandleSort | estoque_ml_full_clean/estoque_ml_full/frontend/dashboard/src/components/SalesHistoryPage.tsx:114-121 | The header's state after a click is NextSort of the state before |
| Text.CaseInsensitive | estoque_ml_full_clean/estoque_ml_full/frontend/dashboard/src/components/ProductsPage.tsx:74-78 | Lower-casing the term or the field does not change whether the search matches |
| Text.EmptyTermMatches | estoque_ml_full_clean/estoque_ml_full/frontend/dashboard/src/components/ProductsPage.tsx:74-78 | The empty term matches every field |

## Left out

- The HTTP layer is not modelled: Flask routing, authentication, the OAuth callback, sessions and the `user_id` checks. Database commits are left out too; of the exceptions that end in a rollback and a 500 answer, only the ones a `null` title, SKU or stock-record product id causes in `sync_products` are modelled. Query results are parameters: the user's product ids, the latest stock record per product, and the listings by item id.
- The marketplace API calls in `sync_products` are not modelled. This covers fetching the user, the item list and the item details, and the per-item stock call. The item details are parameters, and so is whether each item's stock call answers. The stock record that an answering call adds is modelled only as far as it decides whether the sync fails: its figures are not stored in the model.
- A `product_id` that is not an integer is treated as not found. The database's own type coercion is not modelled.
- The float branch of the quantity check is left out. Quantities are integers, and a non-numeric quantity is rejected.
- All random sample-data generators are left out, with their date-range arithmetic. This includes the backend's random fallback in `get_activities` and `get_sales` and the pages' `generateSample*`/`fetch*` mocks. Their output is a parameter.
- The SQL aggregates of `get_stats`, the chart endpoints and `get_sales` are not modelled. They are database queries.
- Date parsing, `toLocaleString`, currency formatting and the `setTimeout` message timers are left out. Timestamps are integer instants, or ISO strings in the backend feed. The absolute date of `formatDate` appears only as `AbsoluteDate`.
- Notifications.HourWord gives only the "hora"/"horas" choice. The rest of the message text is not modelled.
- The sorts are modelled on values. The in-place mutation and the aliasing of `filteredSales.sort` and `sampleActivities.sort` are not observable here, because each sorts a local list.
- Lower-casing covers ASCII and Latin-1 letters only. Full Unicode case mapping is not modelled.
- `trim` recognises a partial set of whitespace characters.
- `handleGlobalSettingsChange` is left out. It stores the threshold input as a string, and the comparisons it then feeds are dynamic-typing artefacts. The global settings are a parameter of the override handlers.
- ShipmentPlanning: `handleInputChange` for the destination and notes fields is left out. It is a plain field assignment.
- The shipment creation request and its mock response are left out.
- The warehouse list is left out.
- Prices and revenue are integers; floating-point money is not modelled.
- SalesHistory.ProductSalesSummary orders equal quantities stably in first-seen order. The model does not cover JavaScript's `Object.entries` placing integer-like titles first.
- SalesChart: the pivot stores the date in the row's `date` field. A product titled `date` overwriting that field is not modelled. Dates are compared through an `instant` parameter standing for `new Date(date).getTime()`.
- ActivityHistory.FilterActivities models the list step as computed when the generator runs. The search term is missing from that effect's dependencies, so typing alone does not refilter the list. That timing is not modelled for this page; the sales history page models it (see Findings).
- The form class of the stock adjustment page keeps the page's behaviour as written: its
  success message uses the as-written verb, and the refresh after a success reselects the
  first product. The corrected verb and reselection are stated beside it (see Findings).
  The error message text of a failed submission is not modelled; only its cause is.
- The icons, CSS class names of activities and notifications, timeline captions and other JSX text are left out, as is ShipmentTracking's `formatDate`.
- `ml_api.py`, the PDF/Excel export helpers, `Dashboard.tsx`, `StockChart.tsx`, `api.ts`, `main.py`, `config.py` and `app.py` are not part of this model.

## Findings

| source | as written | input that shows it | evidently intended | confidence | as-written member | corrected member |
|---|---|---|---|---|---|---|
| frontend/dashboard/src/components/StockAdjustmentPage.tsx:128 | The success message tests the unsigned form quantity, which is always at least 1, so it always says "aumentado" | A "saida_manual" of 3: 3 units are taken out, yet the message says the stock was increased | "reduzido" for the outgoing types (saida_manual, perda, dano), i.e. test the signed quantity that was sent | not executed | AdjustmentForm.SuccessVerbAsWrittenIgnoresType | AdjustmentForm.SuccessVerbFollowsType |
| estoque_ml_full_clean/estoque_ml_full/frontend/dashboard/src/components/SalesHistoryPage.tsx:114-121 | The search and the sort run only inside the sample generator, whose effect depends on the period alone (lines 23-27, 78-100), so `handleSort` changes the header but not the list | Two sales shown newest first (units 5 then 1, dates 1000 and 2000); a click on "Quantidade" leaves the sale with 1 unit on top | A header click or a new search term re-sorts or re-filters the shown list | not executed | SalesHistory.SortClickAsWrittenIsStale | SalesHistory.SortClickKeepsCurrent |
| frontend/dashboard/src/components/StockAdjustmentPage.tsx:132-139 | The reset keeps the selected product (line 132), but the refresh it starts (line 139) runs `fetchProducts`, which selects the first product whenever any is returned (lines 52-54) | Products 1 and 2 listed, product 2 selected, an accepted adjustment: the form ends up on product 1 | The refresh keeps a selection that is still listed and picks the first product only when none is | not executed | AdjustmentForm.RefreshDropsSelection | AdjustmentForm.KeepSelectionSpec |
| src/routes.py:160-195 | A new listing is added without a flush, so `product.id` is still `null` when its stock record is built from it (line 185); `stock_levels.product_id` is NOT NULL (src/models.py:55), so the next autoflush or the commit raises and the whole sync answers 500 | No listings yet, one item MLB1 with SKU S1, title T1 and inventory id INV1 whose stock call answers: nothing is stored and the route answers 500 | Flush the new listing before reading its id (or link the record through the `product` relationship), so the first sync of a fulfilment listing succeeds | not executed | Catalog.NewListingWithStockFails | Catalog.SyncWithoutNullsSucceeds |
