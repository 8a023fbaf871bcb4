# Order guide: a Dafny model of its pricing, ordering and editing logic

This project models the logic of an order-guide application for a kitchen.
The application has a TypeScript server and a React client. Vendors list
products for ingredients. The server prices each listing per unit of the
ingredient's base unit, then ranks the listings and flags the cheapest. From
a shopping list it creates one draft purchase order per vendor. Orders move
through the statuses draft, sent and confirmed. The client shows price
comparisons and runs several small flows:

- the create-order wizard;
- the product search window;
- the order-guide home page search;
- the favourites editor;
- the group editor.

The model is functional throughout:

- Prices and quantities are `real`.
- Text is `string`.
- The database is a value of type `Store`.
- Every handler and every client callback is a pure function from one state to the next.

The modules follow the program:

- **`UnitConversion`**: the conversion table and `pricePerBaseUnit`, from `server/src/services/unitConversion.ts`.
- **`IngredientRanking`**: the ranking inside `GET /ingredients/:id/products`, from `server/src/routes/ingredients.ts`.
- **`ProductComparison`**: the best price, the next price and `getPriceChange` of the comparison table.
- **`VendorGrouping`**, **`PurchaseOrders`**: the purchase-order routes of the server.
- **`PurchaseOrderDetail`**: the order page (buttons, badge, row totals).
- **`OrderLines`**, **`CreateOrder`**, **`SearchProducts`**: the create-order wizard and its search window.
- **`Slugs`**, **`OrderGuide`**: the home page (ingredient pictures, search, the "all products" list).
- **`EditFavorites`**, **`EditGroup`**: the two editors.
- Shared pieces:
  - **`Wrappers`**: `Option`/`Result`.
  - **`Strings`**: ASCII lower-casing, trimming, `includes`, `startsWith`, string order.
  - **`Numerals`**: integer rendering, `toFixed(2)`, `Math.round`.
  - **`Seqs`**: filter, map, subsequences.
  - **`StableSort`**: the stable sort that `Array.prototype.sort` performs.

The conversion table is reproduced exactly as the code has it. For weight it
is inverted: `lb -> oz` is `1/16` and `oz -> lb` is `16`, although one pound
is sixteen ounces. The model keeps those values, and so a price per ounce
computed from a listing in pounds comes out 256 times too high, as it does in
the code. Unknown unit pairs convert 1:1, as the code does.

## Model

| member | source | states |
|---|---|---|
| UnitConversion.KnownUnitNames | server/src/services/unitConversion.ts:6-13 | a unit text is a key of the conversion table exactly when it names one of the six units, and each unit's name is read back as that unit |
| UnitConversion.Conversion | server/src/services/unitConversion.ts:6-13 | every factor the table lists is positive |
| UnitConversion.EntriesReciprocal | server/src/services/unitConversion.ts:6-13 | where the table lists a pair in both directions, the two factors multiply to 1 |
| UnitConversion.NormalizeUnit | server/src/services/unitConversion.ts:21-22 | a normalized unit is lower-case and has no surrounding whitespace |
| UnitConversion.NormalizeIdempotent | server/src/services/unitConversion.ts:21-22 | normalizing twice is normalizing once |
| UnitConversion.Factor | server/src/services/unitConversion.ts:28-37 | the factor is positive; a direct table entry wins; otherwise the reverse entry is used as its reciprocal; otherwise the factor is 1 |
| UnitConversion.FactorReciprocal | server/src/services/unitConversion.ts:28-37 | the factors from a to b and from b to a multiply to 1 for every pair of units |
| UnitConversion.GuardedDiv | server/src/services/unitConversion.ts:25 | a nonzero divisor gives a quotient that multiplies back to the dividend; a zero divisor gives 0; non-negative operands give a non-negative result |
| UnitConversion.UnitFactor | server/src/services/unitConversion.ts:24-37 | the scaling factor is positive; it is 1 when the normalized units agree and the table factor (direct, reciprocal of the reverse, or 1) otherwise |
| UnitConversion.PriceAtFactor | server/src/services/unitConversion.ts:39-40 | a quantity scaled by a positive factor is zero only when the quantity is; the guarded quotient times the scaled quantity is the price, and non-negative inputs give a non-negative result |
| UnitConversion.PricePerNormalizedUnit | server/src/services/unitConversion.ts:24-40 | zero quantity gives 0; otherwise the result times the quantity in base units is the price; non-negative inputs give a non-negative result |
| UnitConversion.PricePerBaseUnit | server/src/services/unitConversion.ts:15-41 | zero quantity gives 0 (no division by zero); non-negative price and quantity give a non-negative price per base unit |
| UnitConversion.ScaledQuantity | server/src/services/unitConversion.ts:39-40 | scaling by a positive factor keeps a quantity zero exactly when it was zero, and keeps it non-negative |
| UnitConversion.SameUnitIsPlainDivision | server/src/services/unitConversion.ts:24-26 | units equal after normalization give price / quantity, or 0 for a zero quantity |
| UnitConversion.UnknownPairIsPlainDivision | server/src/services/unitConversion.ts:30-40 | a pair in neither direction of the table gives price / quantity, or 0 for a zero quantity |
| UnitConversion.NormalizationInvariant | server/src/services/unitConversion.ts:21-24 | the price depends on the units only through their normalized forms |
| UnitConversion.EachToDozenExample | server/src/services/unitConversion.ts:7-40 | twelve units sold "each" for 3.99 cost 3.99 per "dozen" |
| UnitConversion.NormalizesToItself | server/src/services/unitConversion.ts:21-22 | a lower-case, trimmed unit is its own normalized form |
| UnitConversion.FormatUnitPrice | server/src/services/unitConversion.ts:43-45 | the text starts with "$", ends with "/" and the unnormalized base unit, and between them reads back as the value in cents |
| IngredientRanking.WithUnitPrice | server/src/routes/ingredients.ts:55-62 | a priced row keeps the product row unchanged |
| IngredientRanking.PriceAll | server/src/routes/ingredients.ts:55-62 | every row is priced in query order, one priced row per input row |
| IngredientRanking.MarkBest | server/src/routes/ingredients.ts:64-68 | a row is flagged exactly when its price equals the first row's price; the rows are otherwise unchanged |
| IngredientRanking.RankProducts | server/src/routes/ingredients.ts:54-69 | the output is a permutation of the input rows; each row is priced by `PricePerBaseUnit`; the output is ascending by unit price and stable with respect to query order; a row is flagged exactly when no row is cheaper; a non-empty output has its first row flagged |
| IngredientRanking.BestIsMinimum | server/src/routes/ingredients.ts:64-68 | on an ascending list, "equal to the first price" is the same as "at the minimum price" |
| IngredientRanking.RankedRowsArePriced | server/src/routes/ingredients.ts:55-63 | every row of a rearrangement of the priced rows is its product priced in the base unit |
| IngredientRanking.RankedProductsPermute | server/src/routes/ingredients.ts:55-68 | the product rows of the ranking are the input rows, rearranged |
| IngredientRanking.RankingIsTheStableSort | server/src/routes/ingredients.ts:41-63 | any ascending order of the priced rows that keeps query order among equal prices is the ranking |
| IngredientRanking.RankEmpty | server/src/routes/ingredients.ts:64-67 | no rows give an empty ranking |
| StableSort.SortIsStable | server/src/routes/ingredients.ts:63 | the sort returns an ascending permutation that keeps the input order among equal keys |
| StableSort.StableSortIsSort | server/src/routes/ingredients.ts:63 | a stable ascending permutation of a list is unique, so any stable sort gives the model's result |
| ProductComparison.MinUnitPrice | my-app/src/components/ProductComparisonGroup/ProductComparisonGroup.tsx:48 | the result is at most every unit price and equals one of them |
| ProductComparison.BestUnitPrice | my-app/src/components/ProductComparisonGroup/ProductComparisonGroup.tsx:48 | the result is 0 for no rows, otherwise the minimum unit price |
| ProductComparison.SortedByPrice | my-app/src/components/ProductComparisonGroup/ProductComparisonGroup.tsx:49 | the copy is ascending, a permutation of the rows, and stable |
| ProductComparison.NextPriceAfterBest | my-app/src/components/ProductComparisonGroup/ProductComparisonGroup.tsx:50 | the result is present exactly when there are at least two rows, is some row's price, and is no lower than the best price |
| ProductComparison.NextIsSecondLowest | my-app/src/components/ProductComparisonGroup/ProductComparisonGroup.tsx:49-50 | the next price is the second-lowest price counting repeats: at most one row is cheaper and at least two cost no more |
| ProductComparison.SecondLowestUnique | my-app/src/components/ProductComparisonGroup/ProductComparisonGroup.tsx:49-50 | the second-lowest price is a single value, independent of how the rows are ordered |
| ProductComparison.PercentBetter | my-app/src/components/ProductComparisonGroup/ProductComparisonGroup.tsx:59 | the result is (next - best) / next * 100 rounded to the nearest integer, halves up; it is non-negative when best <= next, at most 100 for non-negative prices, and 0 when best == next |
| ProductComparison.PercentAbove | my-app/src/components/ProductComparisonGroup/ProductComparisonGroup.tsx:67 | the result is (price - best) / best * 100 rounded to the nearest integer, halves up; it is non-negative for a price at or above the best, and 0 at the best |
| ProductComparison.GetPriceChange | my-app/src/components/ProductComparisonGroup/ProductComparisonGroup.tsx:52-75 | a row priced at or below 0 gets nothing; a result exists exactly when the best branch (flagged, next price > 0) or the above branch (unflagged, best > 0) applies; `isBest` mirrors the branch; a best row's labels carry the percentage the best price is below the next price, any other row's labels the percentage its price is above the best |
| ProductComparison.LabelPercentInRange | my-app/src/components/ProductComparisonGroup/ProductComparisonGroup.tsx:52-75 | the percentage in a best row's labels lies in [0, 100] for non-negative prices; the percentage in another row's labels is non-negative for a row of the table |
| ProductComparison.LabelsAgree | my-app/src/components/ProductComparisonGroup/ProductComparisonGroup.tsx:60-61 | the primary and secondary labels of both branches carry the same integer, readable back from each |
| ProductComparison.TiedBestIsZero | my-app/src/components/ProductComparisonGroup/ProductComparisonGroup.tsx:58-62 | with two rows tied at a positive lowest price, a flagged row reads "Best by 0%" |
| ProductComparison.TiedBestIsSecondLowest | my-app/src/components/ProductComparisonGroup/ProductComparisonGroup.tsx:49-50 | two rows at the lowest price make it the second-lowest price as well |
| ProductComparison.ServerFlagsMatchBest | server/src/routes/ingredients.ts:64-68 | on the server's ranking, a row's best-price flag holds exactly when its price is the table's best unit price |
| VendorGrouping.ToLine | server/src/routes/purchaseOrders.ts:57 | a line copies the product id, takes the requested quantity as its quantity and the product price as its unit price |
| VendorGrouping.VendorSetMembers | server/src/routes/purchaseOrders.ts:54-59 | a vendor is in the vendor set exactly when some item is from it |
| VendorGrouping.LinesOfIsFilter | server/src/routes/purchaseOrders.ts:55-58 | a vendor's lines are its items, filtered in order and turned into lines |
| VendorGrouping.LinesOfAbsent | server/src/routes/purchaseOrders.ts:55-58 | a vendor without items has no lines |
| VendorGrouping.FirstIndex | server/src/routes/purchaseOrders.ts:55-58 | the position returned holds the vendor's first item |
| VendorGrouping.GroupIndex | server/src/routes/purchaseOrders.ts:56 | the lookup finds the vendor's group when there is one, and reports absence exactly when no group has that vendor |
| VendorGrouping.AddAllGroups | server/src/routes/purchaseOrders.ts:54-59 | the loop over the items yields their partition by vendor |
| VendorGrouping.GroupByVendor | server/src/routes/purchaseOrders.ts:54-59 | the groups have distinct vendors, one per vendor with items; each group holds exactly its vendor's lines in item order; the groups are ordered by each vendor's first item |
| VendorGrouping.Snoc | server/src/routes/purchaseOrders.ts:55-58 | one more item adds its vendor and its line to that vendor only, and leaves the first items of other vendors in place |
| VendorGrouping.AddToExistingGroup | server/src/routes/purchaseOrders.ts:56-58 | appending an item of a known vendor to that vendor's group keeps the partition |
| VendorGrouping.AddNewGroup | server/src/routes/purchaseOrders.ts:56-58 | an item of a new vendor opens a group at the end and keeps the partition |
| VendorGrouping.AddItemKeepsGrouped | server/src/routes/purchaseOrders.ts:55-58 | one turn of the loop keeps the partition |
| VendorGrouping.FlattenSnoc | server/src/routes/purchaseOrders.ts:66-72 | concatenating the groups' lines distributes over appending a group |
| VendorGrouping.FlattenExtend | server/src/routes/purchaseOrders.ts:57 | extending one group by a line adds exactly that line to all lines |
| VendorGrouping.AddItemAddsLine | server/src/routes/purchaseOrders.ts:55-58 | one turn of the loop adds exactly the item's line to the groups' lines |
| VendorGrouping.PermuteStep | server/src/routes/purchaseOrders.ts:55-58 | the loop invariant "the groups' lines are the items' lines, rearranged" survives one turn |
| VendorGrouping.AddAllPermutes | server/src/routes/purchaseOrders.ts:55-59 | after the loop, the groups' lines are the items' lines rearranged |
| VendorGrouping.GroupingPermutes | server/src/routes/purchaseOrders.ts:54-59 | every item's line is in exactly one group: the concatenated groups are a permutation of the items' lines |
| VendorGrouping.FirstGroupIsEarliest | server/src/routes/purchaseOrders.ts:54-66 | the first group's vendor appears no later than any other covered vendor |
| VendorGrouping.RestGrouped | server/src/routes/purchaseOrders.ts:54-66 | without its first group, a partition covers the remaining vendors |
| VendorGrouping.EmptyAvoiding | server/src/routes/purchaseOrders.ts:54-66 | two partitions of the same vendors are empty together |
| VendorGrouping.GroupedAvoidingUnique | server/src/routes/purchaseOrders.ts:54-66 | two partitions of the same vendors are equal |
| VendorGrouping.GroupedUnique | server/src/routes/purchaseOrders.ts:54-66 | any partition of the items by vendor in first-appearance order is the grouping the loop builds |
| PurchaseOrders.ParseStatus | server/src/routes/purchaseOrders.ts:116-117 | a status is accepted exactly when present and one of "draft", "sent", "confirmed", and the accepted status has that name |
| PurchaseOrders.StatusNameRoundTrip | server/src/routes/purchaseOrders.ts:116 | every status is accepted under its own name, and the names are distinct |
| PurchaseOrders.Insert | server/src/routes/purchaseOrders.ts:60-75 | the new order is a draft of that vendor with those lines, appended under the next id; a valid store stays valid and the id is fresh |
| PurchaseOrders.InsertAll | server/src/routes/purchaseOrders.ts:64-75 | one draft order per group, in group order, with consecutive new ids, that vendor and those lines; a valid store stays valid |
| PurchaseOrders.FromShoppingList | server/src/routes/purchaseOrders.ts:42-83 | a missing or zero list id is refused first, then an empty list; it succeeds exactly otherwise; the created orders are appended, are all drafts with consecutive ids, and are the partition of the items by vendor; validity is kept |
| PurchaseOrders.FromShoppingListPartitions | server/src/routes/purchaseOrders.ts:54-75 | exactly one order is created per distinct vendor, and the orders' lines together are the items' lines, each exactly once |
| PurchaseOrders.GroupCount | server/src/routes/purchaseOrders.ts:66 | a partition has as many groups as there are vendors |
| PurchaseOrders.DistinctCount | server/src/routes/purchaseOrders.ts:66 | groups of distinct vendors that cover a vendor set are as many as the vendors |
| PurchaseOrders.CreatePo | server/src/routes/purchaseOrders.ts:85-111 | it succeeds exactly with a present nonzero vendor id and a present non-empty item list, appending one draft with those lines under the next id; every refusal is the same error |
| PurchaseOrders.FindById | server/src/routes/purchaseOrders.ts:118-119 | the position of the first order with the id, absent exactly when no order has it |
| PurchaseOrders.UpdateStatus | server/src/routes/purchaseOrders.ts:113-127 | an invalid status is refused before the id is looked up; an unknown id is refused next; it succeeds exactly otherwise, whatever the current status; only the orders with that id change, and only in status |
| PurchaseOrders.UpdateKeepsValid | server/src/routes/purchaseOrders.ts:118 | a status update keeps a valid store valid |
| PurchaseOrders.UpdateIdempotent | server/src/routes/purchaseOrders.ts:118 | repeating a successful update returns the same store and order |
| PurchaseOrders.SetStatusTwice | server/src/routes/purchaseOrders.ts:118 | setting the same status twice is setting it once |
| PurchaseOrders.SetStatusKeepsIds | server/src/routes/purchaseOrders.ts:118 | setting a status moves no order |
| PurchaseOrders.AnyTransition | server/src/routes/purchaseOrders.ts:116-119 | any existing order can be moved to any status, backwards included |
| PurchaseOrderDetail.BadgeFor | my-app/src/pages/PurchaseOrderDetail.tsx:47 | the badge is "success" exactly for "confirmed", "primary" exactly for "sent", else the default |
| PurchaseOrderDetail.Actions | my-app/src/pages/PurchaseOrderDetail.tsx:56-66 | "Mark as sent" is offered exactly from "draft"; "Mark as confirmed" is offered exactly from "draft" or "sent"; no button targets "draft"; there are no buttons exactly for other statuses |
| PurchaseOrderDetail.ActionsMoveForward | my-app/src/pages/PurchaseOrderDetail.tsx:56-66 | every offered button moves an order strictly forward in the lifecycle and asks for a status the server accepts |
| PurchaseOrderDetail.BadgeMatchesActions | my-app/src/pages/PurchaseOrderDetail.tsx:47-66 | for a stored status, the default badge shows exactly while "Mark as sent" is offered, and the success badge exactly when no button is |
| PurchaseOrderDetail.RowTotalText | my-app/src/pages/PurchaseOrderDetail.tsx:86 | the cell starts with "$", reads back as quantity times unit price in cents, and has a minus sign exactly for a negative total |
| OrderLines.ToLineItem | my-app/src/components/CreateOrderModal/CreateOrderModal.tsx:36-46 | name, unit and price are copied; the quantity is the one given; the line total is the quantity times the unit price; a non-negative quantity and price give a non-negative line total; quantity 1 gives the unit price as the total |
| OrderLines.Total | my-app/src/components/CreateOrderModal/CreateOrderModal.tsx:130 | lines with non-negative totals sum to a non-negative total |
| OrderLines.TotalConcat | my-app/src/components/CreateOrderModal/CreateOrderModal.tsx:130 | the total of two runs of lines is the sum of their totals |
| OrderLines.TotalOfSingles | my-app/src/components/CreateOrderModal/CreateOrderModal.tsx:116-122 | lines of quantity one total the listed prices |
| CreateOrder.Close | my-app/src/components/CreateOrderModal/CreateOrderModal.tsx:64-73 | closing goes to the vendor step with no vendor, the search closed, and nothing chosen |
| CreateOrder.CloseForgets | my-app/src/components/CreateOrderModal/CreateOrderModal.tsx:64-73 | closing from any two states gives the same, initial state |
| CreateOrder.SelectVendor | my-app/src/components/CreateOrderModal/CreateOrderModal.tsx:75-82 | choosing a vendor goes to the products step for that vendor with an empty draft, no ticks and nothing from search |
| CreateOrder.BackToProducts | my-app/src/components/CreateOrderModal/CreateOrderModal.tsx:84-90 | going back keeps the vendor and clears the draft, the ticks and the search additions |
| CreateOrder.BackIsReselect | my-app/src/components/CreateOrderModal/CreateOrderModal.tsx:75-90 | going back is the same as choosing the current vendor again |
| CreateOrder.OpenSearch | my-app/src/components/CreateOrderModal/CreateOrderModal.tsx:304 | the link opens the search window and changes nothing else |
| CreateOrder.AddFromSearch | my-app/src/components/CreateOrderModal/CreateOrderModal.tsx:92-95 | the items follow those added before, the search closes, and nothing else changes |
| CreateOrder.AddFromSearchTwice | my-app/src/components/CreateOrderModal/CreateOrderModal.tsx:92-95 | two additions are one addition of both lists |
| CreateOrder.ToggleRecent | my-app/src/components/CreateOrderModal/CreateOrderModal.tsx:97-104 | only the ticked position flips; nothing else changes |
| CreateOrder.TogglePriceChange | my-app/src/components/CreateOrderModal/CreateOrderModal.tsx:106-113 | only the ticked id flips; nothing else changes |
| CreateOrder.ToggleTwiceRestores | my-app/src/components/CreateOrderModal/CreateOrderModal.tsx:97-113 | ticking the same box twice restores the wizard |
| CreateOrder.Enumerate | my-app/src/components/CreateOrderModal/CreateOrderModal.tsx:117 | each element is paired with its position |
| CreateOrder.PickIndicesCount | my-app/src/components/CreateOrderModal/CreateOrderModal.tsx:116-118 | picking listed positions yields one element per position |
| CreateOrder.ReviewOrder | my-app/src/components/CreateOrderModal/CreateOrderModal.tsx:115-127 | the draft is the ticked regulars, then the ticked price changes, each as a quantity-one line in list order, then the search additions; the step becomes the preview and nothing else changes |
| CreateOrder.ReviewThenBack | my-app/src/components/CreateOrderModal/CreateOrderModal.tsx:84-124 | reviewing and then going back is the same as going back |
| CreateOrder.DraftMatchesCount | my-app/src/components/CreateOrderModal/CreateOrderModal.tsx:115-129 | with ticks the checkboxes can produce, the draft has one line per tick and per search addition, so the review button is disabled exactly when the draft would be empty |
| CreateOrder.ReviewTotal | my-app/src/components/CreateOrderModal/CreateOrderModal.tsx:115-130 | the preview total is the ticked products' prices once each plus the search additions' total |
| CreateOrder.TransitionsKeepSelection | my-app/src/components/CreateOrderModal/CreateOrderModal.tsx:64-113 | choosing a vendor, going back and closing leave the review disabled; ticking a listed box keeps the ticks well formed |
| SearchProducts.CatalogWithIds | my-app/src/components/SearchProductsModal/SearchProductsModal.tsx:38-42 | each entry's id is its position in the vendor's catalogue; an unknown vendor has an empty catalogue |
| SearchProducts.Filtered | my-app/src/components/SearchProductsModal/SearchProductsModal.tsx:43-47 | a blank query keeps everything, and any query keeps a subsequence in catalogue order |
| SearchProducts.FilteredMembers | my-app/src/components/SearchProductsModal/SearchProductsModal.tsx:45-46 | with a non-blank query, an entry is kept exactly when its lower-cased name contains the trimmed, lower-cased query |
| SearchProducts.FilteredIgnoresCase | my-app/src/components/SearchProductsModal/SearchProductsModal.tsx:44-46 | a query and its trimmed, lower-cased form keep the same entries |
| SearchProducts.ToggleProduct | my-app/src/components/SearchProductsModal/SearchProductsModal.tsx:49-56 | only the ticked id flips; the query is kept |
| SearchProducts.ToggleProductTwice | my-app/src/components/SearchProductsModal/SearchProductsModal.tsx:49-56 | ticking twice restores the window |
| SearchProducts.AddToOrder | my-app/src/components/SearchProductsModal/SearchProductsModal.tsx:58-66 | the window resets to an empty query and no ticks; every added line has quantity 1 and a total equal to its price |
| SearchProducts.Close | my-app/src/components/SearchProductsModal/SearchProductsModal.tsx:68-72 | closing resets the query and the ticks |
| SearchProducts.AddIgnoresQuery | my-app/src/components/SearchProductsModal/SearchProductsModal.tsx:58-72 | adding leaves the window as closing does, and what is added does not depend on the query, so entries hidden by the filter are added too |
| SearchProducts.AddFromCatalog | my-app/src/components/SearchProductsModal/SearchProductsModal.tsx:38-62 | from a catalogue, the lines are the quantity-one lines of the products at the ticked positions, each ticked position exactly once, in increasing position (catalogue) order; an unknown vendor adds nothing |
| Slugs.SlugShape | my-app/src/pages/OrderGuideHome.tsx:64 | a slug has no whitespace and is no longer than the text |
| Slugs.SlugOfWord | my-app/src/pages/OrderGuideHome.tsx:64 | text without whitespace is its own slug |
| Slugs.SlugOfRun | my-app/src/pages/OrderGuideHome.tsx:64 | a leading run of whitespace becomes a single dash |
| Slugs.SlugJoin | my-app/src/pages/OrderGuideHome.tsx:64 | a whitespace run between two pieces of text becomes one dash between their slugs |
| OrderGuide.ImageUrl | my-app/src/pages/OrderGuideHome.tsx:16-66 | a blank name has no picture; a listed trimmed name gets its listed file; any other trimmed name gets its slug with ".png", under the image folder |
| OrderGuide.ImageUrlIgnoresSurroundingSpace | my-app/src/pages/OrderGuideHome.tsx:17 | surrounding whitespace does not change the picture |
| OrderGuide.ImageUrlOfTwoWords | my-app/src/pages/OrderGuideHome.tsx:63-65 | an unlisted two-word name gets the words joined by a dash |
| OrderGuide.FilteredForSearch | my-app/src/pages/OrderGuideHome.tsx:222-232 | a blank query keeps every group, and any query keeps a subsequence in order |
| OrderGuide.FilteredForSearchMembers | my-app/src/pages/OrderGuideHome.tsx:225-231 | with a non-blank query, a group is kept exactly when its ingredient name, a product name or a vendor name contains the query |
| OrderGuide.WithChickenDummy | my-app/src/pages/OrderGuideHome.tsx:236-240 | the ingredient is kept, and a group changes only when it is a "Chicken breast" without products, which gets the stand-in products |
| OrderGuide.AllProducts | my-app/src/pages/OrderGuideHome.tsx:234-242 | the list is the non-"Eggs" groups, each with the chicken stand-in rule applied, followed by the extra groups; its length is the non-"Eggs" count plus the extras |
| OrderGuide.AllProductsKeeps | my-app/src/pages/OrderGuideHome.tsx:235-240 | every non-"Eggs" group of the search result appears in the list |
| EditFavorites.FilteredGroups | my-app/src/components/EditFavoritesModal/EditFavoritesModal.tsx:41-51 | a blank query with category "All" keeps everything, and any query keeps a subsequence in order |
| EditFavorites.FilteredGroupsIsFilter | my-app/src/components/EditFavoritesModal/EditFavoritesModal.tsx:41-51 | the two steps are one order-preserving filter by the combined test |
| EditFavorites.FilteredGroupsMembers | my-app/src/components/EditFavoritesModal/EditFavoritesModal.tsx:43-49 | a group is listed exactly when it passes both tests. The search test: the query is blank, or the lower-cased name contains it. The category test: the category is "All", or the lower-cased name starts with the lower-cased category |
| EditFavorites.FilterStepsCommute | my-app/src/components/EditFavoritesModal/EditFavoritesModal.tsx:42-50 | applying the category before the search gives the same list |
| EditFavorites.InsertLetter | my-app/src/components/EditFavoritesModal/EditFavoritesModal.tsx:105-107 | adding a letter keeps the list strictly sorted and adds exactly that letter |
| EditFavorites.Letters | my-app/src/components/EditFavoritesModal/EditFavoritesModal.tsx:105-107 | the letters are strictly sorted and are exactly the groups' letters |
| EditFavorites.CategoryOptions | my-app/src/components/EditFavoritesModal/EditFavoritesModal.tsx:104-111 | "All" comes first, then each upper-cased first letter of a group name once, sorted; each option after "All" has at most one character |
| EditFavorites.StrictlySortedUnique | my-app/src/components/EditFavoritesModal/EditFavoritesModal.tsx:105-107 | two strictly sorted lists with the same elements are equal |
| EditFavorites.CategoryOptionsOrderFree | my-app/src/components/EditFavoritesModal/EditFavoritesModal.tsx:105-107 | the options depend only on which groups are present, not on their order or repeats |
| EditFavorites.ProductCountText | my-app/src/components/EditFavoritesModal/EditFavoritesModal.tsx:138 | the number reads back as the count, followed by " product" exactly for a count of 1 and " products" otherwise |
| EditGroup.Reseed | my-app/src/components/EditGroupModal/EditGroupModal.tsx:48-54 | with a group and an open window, the form takes the group's name and products and the favourite flag; otherwise it is unchanged |
| EditGroup.RemoveProduct | my-app/src/components/EditGroupModal/EditGroupModal.tsx:67-69 | every product with that id leaves; the rest stay in order; name and flag are kept |
| EditGroup.RemoveProductTwice | my-app/src/components/EditGroupModal/EditGroupModal.tsx:67-69 | removing the same id again changes nothing |
| EditGroup.RemoveAbsentProduct | my-app/src/components/EditGroupModal/EditGroupModal.tsx:67-69 | removing an id no product has changes nothing |
| EditGroup.RemoveProductsCommute | my-app/src/components/EditGroupModal/EditGroupModal.tsx:67-69 | two removals may happen in either order |
| EditGroup.SavedName | my-app/src/components/EditGroupModal/EditGroupModal.tsx:60 | a blank edited name falls back to the original; otherwise the name is non-empty, trimmed, and trims like the edited name |
| EditGroup.Save | my-app/src/components/EditGroupModal/EditGroupModal.tsx:56-65 | nothing is saved exactly without a group; otherwise the group's id, the form's products and flag, and the trimmed name or the original name when blank |
| EditGroup.SaveUnedited | my-app/src/components/EditGroupModal/EditGroupModal.tsx:48-65 | opening a group with a trimmed name and saving at once hands back the group with the flag it was opened with |
| EditGroup.SaveAfterRemove | my-app/src/components/EditGroupModal/EditGroupModal.tsx:56-69 | a product removed before saving is not saved, and every other product is |
| EditGroup.SaveIgnoresOpenedProducts | my-app/src/components/EditGroupModal/EditGroupModal.tsx:58-63 | saving reads the products from the form, not from the group |
| Strings.Trim | server/src/services/unitConversion.ts:21-22 | `trim()` yields a trimmed slice of the text, empty exactly for blank text |
| Strings.SearchKey | my-app/src/pages/OrderGuideHome.tsx:223 | the trimmed, lower-cased query is empty exactly for a blank query, and is lower-case and trimmed |
| Strings.SearchKeyIdempotent | my-app/src/components/SearchProductsModal/SearchProductsModal.tsx:45 | trimming and lower-casing twice is doing it once |
| Strings.ContainsIffOccurs | my-app/src/components/SearchProductsModal/SearchProductsModal.tsx:46 | `includes` holds exactly when the text occurs at some position |
| Numerals.IntToStringRoundTrip | my-app/src/components/ProductComparisonGroup/ProductComparisonGroup.tsx:60-61 | an interpolated integer reads back as itself |
| Numerals.Round | my-app/src/components/ProductComparisonGroup/ProductComparisonGroup.tsx:59 | `Math.round` gives the nearest integer, halves upward |
| Numerals.ToFixed2RoundTrip | server/src/services/unitConversion.ts:44 | the two-decimal text reads back as a whole number of cents that lies within half a cent of the value |

## Left out

- Rendering, styling, routing and HTTP plumbing are not modelled. This covers React, CSS modules and Express status codes and bodies. Only the values the handlers compute are modelled, and the refusals appear as `PoError` values.
- SQLite is not modelled. The database is a `Store`: the orders in insertion order, plus the `AUTOINCREMENT` counter. Query results are input sequences, and rows are never deleted. The columns `created_at` and the vendor-name join of the returned rows are not modelled. Transactions are atomic by construction.
- The GET routes are not modelled, because they read rows and compute nothing.
- `api/client.ts` and `CreateOrderModalContext.tsx` are not modelled, because they are network and browser plumbing.
- Fixtures are parameters, not constants. This covers the vendor catalogues, regulars, price changes, the chicken-breast stand-in products and the three extra groups of the home page. `OrderGuide.AllProducts` holds for any list of extra groups, three included.
- Floating point is not modelled. Prices are exact reals, so NaN, infinities and rounding error are not modelled. `toFixed(2)` is modelled as rounding to cents, halves away from zero, without its exponent form for magnitudes of 1e21 and above. `Intl.NumberFormat` currency text is not modelled.
- Unicode is not modelled. `trim`, `toLowerCase`, `toUpperCase` and the regular expression `\s` act on ASCII only.
- JavaScript objects used as maps also answer inherited keys, for example `CONVERSIONS["constructor"]` and the image map's `"toString"`. The model looks up own keys only.
- Request bodies of the wrong type are not modelled, for example a non-numeric `vendorId` or a non-array `items`. A missing field is `None`, and a zero id or an empty list is refused, as the truthiness checks do.
- `Math.min(...)` over very long lists, which can exceed the engine's argument limit, is not modelled.
- The row total cell of an order's page is modelled for exact reals only, without the floating-point product.
- UnitConversion.PricePerBaseUnit: its contract states zero-quantity safety and non-negativity. The inverse property, that the price per base unit times the quantity in base units gives the price, is stated on `UnitConversion.PricePerNormalizedUnit`, which `PricePerBaseUnit` applies to the normalized units.
- SearchProducts.AddToOrder: its contract states the reset and the shape of each line. That the lines are exactly the ticked entries, once each and in catalogue order, is stated by `SearchProducts.AddFromCatalog` for catalogues with ticked positions in range.
- EditGroup.Reseed: the list copy `[...group.products]` is the same value, because sequences are immutable.
- The create-order wizard's `onSaveDraft` and `onSend` callbacks are not modelled, because they leave the component.
- Selecting groups in the favourites editor is not modelled, because the parent component owns that selection.
