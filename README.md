# nearyCollection order and inventory core, in Dafny

This project models the order lifecycle and inventory core of the
nearyCollection shop, a Next.js/Prisma storefront with an admin console and a
point-of-sale (POS) screen, and proves properties of the model. It covers
three parts.

- **The order and inventory engine** (`OrderStore.Store`). One class holds
  customers, variants, orders, the inventory ledger and payment slips.
  - Each `prisma.$transaction` block is one method. It computes on local
    copies and commits once at the end, so a failed call leaves the store
    unchanged.
  - Checkout upserts the customer by phone and checks every line against the
    stock read for it. It snapshots the items, totals them, and creates a
    `NEW`/`UNPAID` order under a code `NC-YYYYMMDD-NNNN`. It then deducts each
    line's stock and writes one `DEDUCT` row per line.
  - Cancelling gives the stock back with `IN` rows.
  - The payment status writes, slip upload, manual stock adjustments and
    variant create/update/delete each leave the ledger rows the source
    writes.
- **Cart state.** The storefront cart store (`ShopCart.Cart`: add, remove,
  set quantity, clear, total, count) and the POS cart updaters (`Pos`), each
  with its stock cap. The POS screen shows a subtotal (`Pos.PosSubtotal`)
  and a total (`Pos.PosTotal`) but no unit count; `Pos.PosCount`, the sum
  of the lines' quantities, is the model's own measure, used to state that
  the plus and minus buttons move the cart by exactly one unit.
- **Read-side projections.** These are pure functions over the state:
  - the admin order listing, with its filters and its paging;
  - tracking by code with the phone check;
  - the dashboard metrics;
  - the low-stock and recent-transaction alerts;
  - the storefront category page.

Money is exact (`real`). Quantities and stock are unbounded integers. Ids
work as follows:
- customers and orders are positions in sequences;
- variants are keyed by id in a map, with a counter for the next id.

Time has three models:
- The date of an order code and the code's random four-digit suffix are
  parameters.
- An order's `createdAt` is the previous order's time plus an `elapsed`
  parameter, so the stored orders are in chronological order.
- Ledger rows and catalogue products carry no timestamp. They are kept in
  insertion order, so "newest first" is the reverse of that order.

The store's invariant `Valid()` says:
- orders sit at their ids and have unique codes;
- phones are unique among customers;
- variants are keyed by their ids and belong to known products;
- ledger rows and slips refer to existing rows.

`Domain.Reconciled` says that every variant's stock equals the signed sum of
its ledger rows. Here `IN` counts `+qty`, `DEDUCT` carries an already negative
`qty`, and `ADJUST` and `OUT` count `-qty`. Checkout, cancellation and the
variant operations are proved to preserve it. It is not part of `Valid()`,
because `logTransaction` and `adjustStock` on their own only write ledger rows
without moving any stock.

Where the design description and the code differ, the model follows the
code:
- **Status writes.** Any order status can be written from any status; there
  is no transition table. Leaving `CANCELLED` does not deduct stock again.
- **Slip upload.** A slip upload sets the payment status to
  `PENDING_VERIFICATION` whatever it was, `PAID` included.
- **Negative stock.** Stock can go negative. Each checkout line is checked
  against the stock as read, not against what earlier lines of the same
  order took, so two lines for one variant can overdraw it
  (`Checkout.DuplicateLinesOverdraw`). Stock is proved to stay non-negative
  only for orders whose lines name distinct variants.
- **Tracking messages.** Tracking answers an unknown code and a wrong phone
  with different messages.

## Model

| member | source | states |
|---|---|---|
| Common.Window | src/lib/repositories/orderRepository.ts:163-168 | `skip`/`take` over a list: the window has at most `take` elements, exactly `min(take, n - skip)` when `skip` is in range, and element `i` is element `skip + i` of the list |
| Common.Reverse | src/lib/repositories/orderRepository.ts:168 | newest first over rows kept oldest first: same length, element `i` is element `n - 1 - i` |
| Common.ContainsAt | src/lib/repositories/orderRepository.ts:151 | the substring test used by `contains` and `includes` holds exactly when the pattern occurs at some position |
| Common.NatToStringRoundTrip | src/lib/repositories/orderRepository.ts:79-80 | the decimal rendering of a number reads back as that number |
| Common.PadDigitsRoundTrip | src/lib/repositories/orderRepository.ts:78 | a zero-padded fixed-width rendering of a number that fits reads back as that number |
| Inventory.Entry | src/lib/services/inventoryService.ts:7-24 | the ledger row copies variant, type, qty, refType, refId and note from the input, and links a creating user exactly when a non-empty user id is supplied |
| Inventory.AdjustmentLog | src/lib/services/inventoryService.ts:26-43 | no row when the stock is unchanged; otherwise one row with a positive qty equal to the size of the change, typed `IN` exactly when stock rises and `ADJUST` exactly when it falls, refType `MANUAL_ADJUSTMENT` and a note naming both values; read with the signed delta, the row moves the old stock exactly to the new one |
| Inventory.RawAdjustmentQtyIsUnsigned | src/lib/services/inventoryService.ts:37-38 | a decrease from 5 to 3 is logged as `ADJUST` with qty `+2`, so adding raw quantities does not give the stock |
| Inventory.InitialStockLog | src/lib/services/variantService.ts:25-34 | a new variant with positive stock gets one `IN` row of that qty with refType `INITIAL_STOCK` and the user id; zero stock gets none |
| VariantValidators.ParseCreate | src/lib/validators/variantValidators.ts:3-11 | accepted exactly when sku is a non-empty string, salePrice a number at least 0, stockOnHand absent or a whole number at least 0, and isActive absent or a boolean; rejections name at least one field; accepted sku, salePrice, stock and isActive are the supplied ones, absent stock is 0 and absent isActive is true; color and size are the supplied strings or "" otherwise, and costPrice is the supplied number when it is at least 0 and 0 otherwise |
| VariantValidators.ParseUpdate | src/lib/validators/variantValidators.ts:13 | accepted exactly when each of sku, salePrice, stockOnHand and isActive is omitted or passes its create rule; a rejected patch names at least one failing field |
| VariantValidators.UpdateAllOmitted | src/lib/validators/variantValidators.ts:13 | the update schema accepts input with every field omitted and yields an empty patch |
| VariantValidators.UpdateAgreesWithCreate | src/lib/validators/variantValidators.ts:13 | each of the seven fields of an accepted patch is omitted exactly when absent from the input, and otherwise holds what the create schema's rule for that field yields (sku, salePrice, stock and isActive as supplied; color, size and cost after their fallbacks) |
| VariantValidators.UpdateAcceptsLikeCreate | src/lib/validators/variantValidators.ts:13 | with every required field present, the update schema accepts exactly what the create schema accepts |
| Checkout.FindByPhone | src/lib/repositories/orderRepository.ts:23-25 | `findFirst` by phone: the earliest customer with that phone, or none exactly when no customer has it |
| Checkout.UpsertCustomer | src/lib/repositories/orderRepository.ts:22-39 | an unknown phone appends exactly one customer; a known phone reuses that customer with the supplied name and no new row; no other customer changes |
| Checkout.UpsertKeepsPhonesUnique | src/lib/repositories/orderRepository.ts:22-39 | upserting keeps phones unique and leaves exactly one customer with the supplied phone |
| Checkout.FirstFailureNone | src/lib/repositories/orderRepository.ts:45-57 | the stock checks pass exactly when every line, checked on its own against the unmodified stock, passes |
| Checkout.FirstFailureIsFirst | src/lib/repositories/orderRepository.ts:45-57 | a failing checkout reports the error of a line before which every line passed |
| Checkout.FirstFailureStops | src/lib/repositories/orderRepository.ts:45-57 | once a prefix of the lines fails, later lines do not change the reported error |
| Checkout.SnapshotsAt | src/lib/repositories/orderRepository.ts:62-73 | item `i` is the snapshot of line `i` and its variant |
| Checkout.SnapshotsTotal | src/lib/repositories/orderRepository.ts:59-60 | the subtotal equals the sum of the items' line totals |
| Checkout.SnapshotIsFaithful | src/lib/repositories/orderRepository.ts:62-73 | a snapshot takes variant, qty, sale price and discount (default 0) from the request and name, size, color, SKU and cost price from the variant, with line total `(salePrice - discount) * qty` |
| Checkout.NewOrderTotals | src/lib/repositories/orderRepository.ts:76-106 | the new order is `NEW` and `UNPAID`, has one faithful item per line, subtotal equal to the sum of line totals, and total equal to subtotal plus the delivery fee |
| Checkout.Deduct | src/lib/repositories/orderRepository.ts:109-117 | the deductions neither add nor remove variants |
| Checkout.DeductStock | src/lib/repositories/orderRepository.ts:109-117 | every variant's stock drops by the total qty its lines ask for, and nothing else about it changes |
| Checkout.DeductionRows | src/lib/repositories/orderRepository.ts:119-128 | one ledger row per line |
| Checkout.DeductionRowsShape | src/lib/repositories/orderRepository.ts:119-128 | row `i` names line `i`'s variant, is `DEDUCT` with qty `-qty`, refType `ORDER` and the order's id |
| Checkout.DeductionRowsSum | src/lib/repositories/orderRepository.ts:119-128 | the rows move each variant's ledger sum by minus the qty ordered of it |
| Checkout.DeductKeepsReconciled | src/lib/repositories/orderRepository.ts:108-129 | deducting and logging together keep stock equal to the ledger sum |
| Checkout.DeductNonNegative | src/lib/repositories/orderRepository.ts:45-129 | with non-negative stock and lines naming distinct variants, passing the checks leaves no stock negative |
| Checkout.DuplicateLinesOverdraw | src/lib/repositories/orderRepository.ts:55 | two lines of qty 1 for a variant with stock 1 both pass the check and leave stock at -1 |
| Checkout.NatToStringIsPadded | src/lib/repositories/orderRepository.ts:79 | a suffix of exactly `w` digits renders as its `w`-digit padding |
| Checkout.OrderCodeRoundTrip | src/lib/repositories/orderRepository.ts:78-80 | for a valid date and a suffix in [1000, 9999] the code is 16 characters and parses back to that date and suffix |
| Checkout.RestoreStock | src/lib/repositories/orderRepository.ts:226-233 | a successful restore neither adds nor removes variants |
| Checkout.RestoreStockMeaning | src/lib/repositories/orderRepository.ts:225-233 | the restore succeeds exactly when every item's variant still exists, and then adds each variant's total item qty to its stock, changing nothing else |
| Checkout.RestoreStockSucceeds | src/lib/repositories/orderRepository.ts:226-233 | the restore succeeds exactly when every item's variant still exists |
| Checkout.RestoreStockAdds | src/lib/repositories/orderRepository.ts:226-233 | a successful restore adds each variant's total item qty to its stock |
| Checkout.RestoreStockStops | src/lib/repositories/orderRepository.ts:226-233 | a missing variant aborts the restore whatever items follow |
| Checkout.RestoreRows | src/lib/repositories/orderRepository.ts:234-243 | one ledger row per item |
| Checkout.RestoreRowsShape | src/lib/repositories/orderRepository.ts:234-243 | row `i` names item `i`'s variant, is `IN` with qty `+qty`, refType `ORDER` and the order's id |
| Checkout.RestoreRowsSum | src/lib/repositories/orderRepository.ts:234-243 | the rows move each variant's ledger sum by the qty of it in the order |
| Checkout.RestoreKeepsReconciled | src/lib/repositories/orderRepository.ts:224-245 | restoring and logging together keep stock equal to the ledger sum |
| Checkout.ItemQtyOfSnapshots | src/lib/repositories/orderRepository.ts:71 | the items carry, per variant, the same total qty as the lines |
| Checkout.CancelUndoesCheckout | src/lib/repositories/orderRepository.ts:225-233 | restoring an order's items right after its deduction gives back exactly the variants before checkout |
| OrderStore.CheckLines | src/lib/repositories/orderRepository.ts:45-74 | the validation loop fails with the first failing line's error, and otherwise yields the snapshots and the subtotal |
| OrderStore.ApplyDeductions | src/lib/repositories/orderRepository.ts:108-129 | the deduction loop yields the deducted variants and one `DEDUCT` row per line |
| OrderStore.ApplyRestore | src/lib/repositories/orderRepository.ts:224-245 | the restoration loop fails exactly as the restore does, and otherwise yields the restored variants and one `IN` row per item |
| OrderStore.ApplyPatch | src/lib/services/variantService.ts:49-59 | an update keeps id and product, an empty patch keeps the variant, and the stock is the supplied one or the old one |
| OrderStore.CreateKeepsReconciled | src/lib/services/variantService.ts:7-37 | a new variant with its initial row keeps stock equal to the ledger sum |
| OrderStore.UpdateKeepsReconciled | src/lib/services/variantService.ts:39-60 | an update with its adjustment row keeps stock equal to the ledger sum |
| OrderStore.DeductIsStockOnly | src/lib/repositories/orderRepository.ts:109-117 | checkout changes only stock levels |
| OrderStore.CheckoutKeepsStock | src/lib/repositories/orderRepository.ts:108-129 | checkout keeps stock reconciled with the ledger, and keeps it non-negative for distinct-variant lines |
| OrderStore.CancelKeepsStock | src/lib/repositories/orderRepository.ts:224-245 | a cancellation keeps stock reconciled with the ledger |
| OrderStore.CheckoutKeepsValid | src/lib/repositories/orderRepository.ts:5-133 | a committed checkout keeps the store's invariant |
| OrderStore.StatusWriteKeepsValid | src/lib/repositories/orderRepository.ts:215-252 | a status write, with or without restored stock, keeps the store's invariant |
| OrderStore.Store.OrderById | src/lib/repositories/orderRepository.ts:192-213 | `getOrderById` finds the order exactly when the id exists |
| OrderStore.Store.CreateOrder | src/lib/repositories/orderRepository.ts:5-133 | the checkout transaction: the first failing line's error, or a taken code, leaves everything unchanged; otherwise it upserts the customer, appends the new order, deducts the stock and appends the `DEDUCT` rows, and changes nothing else; it keeps stock reconciled, and non-negative for distinct-variant lines |
| OrderStore.Store.PlaceOrder | src/lib/repositories/orderRepository.ts:83-129 | once the checks pass: the upsert, the order row, the deductions and their rows, and nothing else |
| OrderStore.Store.UpdateOrderStatus | src/lib/repositories/orderRepository.ts:215-252 | an unknown id fails; any status is written as given; moving into `CANCELLED` from another status gives the stock back with `IN` rows, or fails unchanged when a variant is gone; any other write touches no stock or ledger |
| OrderStore.Store.UpdatePaymentStatus | src/lib/repositories/orderRepository.ts:254-259 | an unknown id fails unchanged; otherwise only that order's payment status changes |
| OrderStore.Store.UploadPaymentSlip | src/app/actions/paymentActions.ts:6-41 | an unknown order fails unchanged; otherwise exactly one slip with that order, url and method is appended, the order's payment status becomes `PENDING_VERIFICATION` whatever it was, and the result carries the order's code |
| OrderStore.Store.LogTransaction | src/lib/services/inventoryService.ts:7-24 | an unknown variant fails unchanged; otherwise exactly one row is appended and no stock changes |
| OrderStore.Store.AdjustStock | src/lib/services/inventoryService.ts:26-43 | no change of stock writes nothing; otherwise exactly the adjustment row is appended; stock itself is never written |
| OrderStore.Store.CreateVariant | src/lib/services/variantService.ts:7-37 | invalid input or an unknown product fails unchanged; otherwise the parsed variant is added under a fresh id, with one initial-stock row exactly when its stock is positive |
| OrderStore.Store.UpdateVariant | src/lib/services/variantService.ts:39-60 | an invalid patch or unknown id fails unchanged; otherwise supplied fields replace the variant's and omitted ones stay, with one adjustment row exactly when a different stock is supplied |
| OrderStore.Store.DeleteVariant | src/lib/services/variantService.ts:62-64 | an unknown id fails unchanged; otherwise only that variant is removed |
| Queries.Matching | src/lib/repositories/orderRepository.ts:144-161 | the matches are orders that pass the filter |
| Queries.MatchingMembers | src/lib/repositories/orderRepository.ts:144-161 | an order is listed exactly when it passes the status, payment-status and case-insensitive search filters |
| Queries.MatchingNoFilter | src/lib/repositories/orderRepository.ts:144-149 | with no filters every order matches, in order |
| Queries.MatchingChronological | src/lib/repositories/orderRepository.ts:144-168 | filtering keeps the orders in creation order |
| Queries.NewestFirstWindow | src/lib/repositories/orderRepository.ts:163-168 | a page of the reversed list is newest first |
| Queries.WindowMembers | src/lib/repositories/orderRepository.ts:163-168 | a page holds only rows of the list |
| Queries.GetOrders | src/lib/repositories/orderRepository.ts:135-190 | `total` is the number of matches; past the end the page is empty, otherwise it holds `take` (or all remaining) of them, the `i`-th being the match `skip + i` places from the newest |
| Queries.GetOrdersMeaning | src/lib/repositories/orderRepository.ts:135-190 | `total` counts every match regardless of paging; the page holds only matches, newest first and at most `take` of them, and starts with the match `skip` places from the newest |
| Queries.WindowsTile | src/lib/repositories/orderRepository.ts:164-167 | consecutive windows concatenate to the window over both |
| Queries.AtLeastOne | src/lib/services/orderService.ts:44-45 | `Math.max(1, x or fallback)`: a positive value is kept, an absent or zero one becomes the fallback, and a negative one becomes 1 |
| Queries.NextPageSkip | src/lib/services/orderService.ts:46 | each next page skips `limit` more orders |
| Queries.ListOrders | src/lib/services/orderService.ts:36-59 | the service page holds at most `limit` matches and its total counts every match |
| Queries.ListOrdersPagesTile | src/lib/services/orderService.ts:46-54 | pages `p` and `p + 1` together are the window of `2 * limit` matches from page `p`'s skip, so pages neither overlap nor leave gaps |
| Queries.SafeItems | src/app/actions/trackingActions.ts:34-40 | the item projection keeps count and order |
| Queries.FindByCode | src/app/actions/trackingActions.ts:7-14 | the lookup finds an order with that code, or none exactly when no order has it |
| Queries.TrackOrder | src/app/actions/trackingActions.ts:5-50 | "not found" exactly when no order has the code; success only for an order with that code whose customer's phone equals the supplied one, showing its public projection |
| Queries.TrackOrderFinds | src/app/actions/trackingActions.ts:16-41 | with unique codes, tracking an order with its customer's phone shows it, any other phone gets the mismatch error, and the shown items keep qty and line total |
| Queries.TrackOrderOnlyShowsPublicFields | src/app/actions/trackingActions.ts:25-41 | orders that agree on code, statuses, method, total, date and item name, qty, total, size and color look the same, so names, phones, address and costs are not shown |
| Queries.CountActive | src/lib/repositories/dashboardRepository.ts:9-13 | the active count is at most the number of orders |
| Queries.GetMetrics | src/lib/repositories/dashboardRepository.ts:4-70 | totalCustomers counts customers, totalOrders the orders not cancelled, totalRevenue the total of paid orders not cancelled, and recentOrders the five newest, newest first |
| Queries.CountActiveAllActive | src/lib/repositories/dashboardRepository.ts:9-13 | when nothing is cancelled, every order counts |
| Queries.RevenueNoneEarning | src/lib/repositories/dashboardRepository.ts:16-26 | with no paid, uncancelled order the revenue is 0 |
| Queries.CancelMetrics | src/lib/repositories/dashboardRepository.ts:9-26 | cancelling an active order lowers the count by one and the revenue by its total when it was paid |
| Queries.NewOrderMetrics | src/lib/repositories/dashboardRepository.ts:9-26 | a new `NEW`/`UNPAID` order raises the count by one and leaves the revenue alone |
| ShopCart.FindLine | src/lib/store/cartStore.ts:45 | `findIndex`: the first line for the variant, or none exactly when there is none |
| ShopCart.Without | src/lib/store/cartStore.ts:66-70 | removal never grows the cart |
| ShopCart.WithoutMembers | src/lib/store/cartStore.ts:66-70 | a line stays exactly when it is for another variant |
| ShopCart.WithoutAbsent | src/lib/store/cartStore.ts:66-70 | removing an absent variant leaves the cart as it was |
| ShopCart.CartCountWithout | src/lib/store/cartStore.ts:66-91 | removing a line lowers `CartCount` by its qty |
| ShopCart.ClampQty | src/lib/store/cartStore.ts:76 | `min(max(1, qty), stock)`: never above the stock, at least 1 when stock allows, and the requested qty when it is in range |
| ShopCart.WithQty | src/lib/store/cartStore.ts:72-81 | only the matching lines change, to the clamped qty |
| ShopCart.WithQtyIsUpdate | src/lib/store/cartStore.ts:72-81 | with unique lines, setting a qty changes at most the one line and moves the count by the difference |
| ShopCart.CartSumsAppend | src/lib/store/cartStore.ts:85-91 | what `CartCount` and `CartTotal` (`getCartCount`, `getCartTotal`) add up: a new line adds its qty to the count and price times qty to the total |
| ShopCart.CartSumsUpdate | src/lib/store/cartStore.ts:85-91 | changing a line's qty moves `CartCount` and `CartTotal` by the difference |
| ShopCart.WithoutKeepsUnique | src/lib/store/cartStore.ts:66-70 | removal keeps one line per variant |
| ShopCart.AddItemCount | src/lib/store/cartStore.ts:43-64 | adding keeps one line per variant and moves the count by the capped amount |
| ShopCart.Cart.constructor | src/lib/store/cartStore.ts:38-39 | the cart starts empty with the drawer closed |
| ShopCart.Cart.SetIsDrawerOpen | src/lib/store/cartStore.ts:41 | sets the drawer flag and keeps the items |
| ShopCart.Cart.AddItem | src/lib/store/cartStore.ts:43-64 | a new variant appends one line of `min(qty, stock)` (qty defaulting to 1); a present one sets that line to `min(old + qty, incoming stock)`; the drawer opens and lines stay unique |
| ShopCart.Cart.RemoveItem | src/lib/store/cartStore.ts:66-70 | drops the variant's lines, keeping the rest in order |
| ShopCart.Cart.UpdateQty | src/lib/store/cartStore.ts:72-81 | only the matching line changes, to the clamped qty |
| ShopCart.Cart.ClearCart | src/lib/store/cartStore.ts:83 | empties the items and keeps the drawer flag |
| Alerts.LowOnly | src/lib/repositories/inventoryAlertRepository.ts:4-10 | keeps exactly the variants at or below the threshold, each at most as often as in the catalogue |
| Alerts.SortByStock | src/lib/repositories/inventoryAlertRepository.ts:14-16 | sorted by stock ascending, and a permutation of its input |
| Alerts.LowStockVariants | src/lib/repositories/inventoryAlertRepository.ts:4-18 | the result is sorted by stock ascending |
| Alerts.LowStockMeaning | src/lib/repositories/inventoryAlertRepository.ts:4-18 | a variant is listed exactly when it is in the catalogue at or below the threshold (5 by default), and no more often than it occurs there |
| Alerts.RecentTransactions | src/lib/repositories/inventoryAlertRepository.ts:20-32 | `min(take, n)` rows (take defaulting to 20), newest first |
| Alerts.RecentAreLatest | src/lib/repositories/inventoryAlertRepository.ts:20-32 | the rows are the latest ones written, in reverse |
| Alerts.RecentAfterWrite | src/lib/repositories/inventoryAlertRepository.ts:20-32 | a row just written heads the list, followed by the earlier list without its oldest row when full |
| Pos.InStock | src/app/admin/pos/page.tsx:91 | a variant stays exactly when `stockOnHand - reservedQty > 0` |
| Pos.FetchProducts | src/app/admin/pos/page.tsx:89-92 | exactly the active products that still have a variant with stock left, each trimmed to those variants |
| Pos.FetchedAreSellable | src/app/admin/pos/page.tsx:89-92 | every fetched product is active and has only variants with stock left, at least one |
| Pos.Search | src/app/admin/pos/page.tsx:70-80 | a blank query shows every product; any other shows exactly those whose Khmer or English name contains it, ignoring case |
| Pos.MatchingNames | src/app/admin/pos/page.tsx:75-78 | a product stays exactly when one of its names contains the query, ignoring case |
| Pos.SearchFindsOwnName | src/app/admin/pos/page.tsx:70-80 | searching for a product's name, as typed or lower-cased, finds it |
| Pos.FindLine | src/app/admin/pos/page.tsx:110 | the first line for the variant, or none exactly when there is none |
| Pos.AddToCart | src/app/admin/pos/page.tsx:108-135 | a new variant appends one line of qty 1; a present one is left alone at or above the available stock and otherwise gains one unit |
| Pos.AddToCartKeeps | src/app/admin/pos/page.tsx:108-131 | adding keeps one line per variant and every qty positive |
| Pos.AddToCartWithinStock | src/app/admin/pos/page.tsx:110-121 | adding never takes a line above the available stock |
| Pos.UpdateCartQty | src/app/admin/pos/page.tsx:137-148 | only matching lines change, by the delta, unless that would leave them at 0 or below; there is no stock cap |
| Pos.UpdateCartQtyKeeps | src/app/admin/pos/page.tsx:137-148 | a qty change keeps one line per variant and every qty positive |
| Pos.UpdateCartQtySums | src/app/admin/pos/page.tsx:137-154 | an allowed change moves the cart's units by the delta and `PosSubtotal` by the delta times the line's price |
| Pos.UpdateCartQtyOneLine | src/app/admin/pos/page.tsx:137-148 | with one line per variant, an allowed change rewrites that line's qty and nothing else |
| Pos.MinusOneUnit | src/app/admin/pos/page.tsx:137-154 | minus on a line above 1 removes exactly one unit and its price from the subtotal, keeping the cart's invariants |
| Pos.MinusButtonSums | src/app/admin/pos/page.tsx:294-303 | the minus button removes one unit, deleting a line of 1, lowers the subtotal by that line's price, and keeps the cart's invariants |
| Pos.PlusButtonSums | src/app/admin/pos/page.tsx:302-307 | the plus button adds one unit and raises the subtotal by the line's price |
| Pos.RemoveFromCart | src/app/admin/pos/page.tsx:150-152 | keeps exactly the lines for other variants |
| Pos.RemoveFromCartKeeps | src/app/admin/pos/page.tsx:150-152 | removal keeps one line per variant and positive quantities |
| Pos.PosSumsRemove | src/app/admin/pos/page.tsx:150-154 | removing a line lowers the cart's units by its qty and `PosSubtotal` by its amount |
| Pos.RemoveAbsent | src/app/admin/pos/page.tsx:150-152 | removing an absent variant leaves the cart as it was |
| Pos.PosSumsUpdate | src/app/admin/pos/page.tsx:154 | setting one line's qty moves `PosSubtotal` (the `reduce` of price times qty) by the difference of that line's amounts, and the cart's units by the difference of quantities |
| Pos.PosSumsAppend | src/app/admin/pos/page.tsx:154 | a further line adds its amount to `PosSubtotal` and its qty to the units |
| Pos.SubtotalShift | src/app/admin/pos/page.tsx:154 | moving one line's qty by a delta moves `PosSubtotal` by the delta times its price |
| Pos.DeliveryFee | src/app/admin/pos/page.tsx:155 | 1.50 for Phnom Penh and 2.50 for the provinces |
| Pos.PayloadLines | src/app/admin/pos/page.tsx:166-171 | one request line per cart line, in order |
| Pos.CheckoutPayload | src/app/admin/pos/page.tsx:158-184 | an empty cart is not submitted; otherwise the request carries the form's customer and delivery details, the zone's fee, `isPOS`, and each cart line's variant, qty and price with discount 0 |
| Pos.PayloadSubtotal | src/app/admin/pos/page.tsx:154-171 | the submitted lines' subtotal equals the subtotal shown on screen |
| Pos.PayloadLineTotal | src/app/admin/pos/page.tsx:166-171 | each submitted line totals what the screen shows for it |
| Pos.CheckoutTotalAsShown | src/app/admin/pos/page.tsx:154-184 | the order's subtotal plus fee equals `PosTotal`, the total shown to staff |
| Shop.InCategory | src/app/actions/shopActions.ts:9-12 | exactly the active products of the category |
| Shop.ActivePrices | src/app/actions/shopActions.ts:21-24 | exactly the sale prices of active variants |
| Shop.MinOf | src/app/actions/shopActions.ts:38 | `Math.min`: a member no larger than any other |
| Shop.Price | src/app/actions/shopActions.ts:37-39 | price 0 when no variant is active, otherwise an active variant's price that no active variant undercuts |
| Shop.FirstImage | src/app/actions/shopActions.ts:17-20 | an image of lowest sortOrder, none exactly when there are no images |
| Shop.ImageOf | src/app/actions/shopActions.ts:44 | no images shows the placeholder; any other image shown is the non-empty url of a first image by sortOrder |
| Shop.ImageShown | src/app/actions/shopActions.ts:17-44 | when the first images by sortOrder have urls, one of those urls is shown rather than the placeholder |
| Shop.Cards | src/app/actions/shopActions.ts:36-46 | one card per product, in order |
| Shop.ProductsByCategory | src/app/actions/shopActions.ts:5-47 | the page is refused, naming its skip, exactly when that skip is negative; an accepted page holds `min(limit, n - skip)` cards for `n` listed products, and none when `skip >= n` |
| Shop.PageCards | src/app/actions/shopActions.ts:5-46 | at most `limit` cards, card `i` showing the listed product `skip + i` places from the newest |
| Shop.NewestCards | src/app/actions/shopActions.ts:9-15 | the first window of `lim` shows the last `min(lim, n)` listed products, newest first |
| Shop.PageHasMore | src/app/actions/shopActions.ts:47 | hasMore holds exactly when some listed product lies past this page |
| Shop.ProductsAreListed | src/app/actions/shopActions.ts:9-12 | every card shows an active product of the requested category |
| Shop.FirstPageIsNewest | src/app/actions/shopActions.ts:5-26 | the default page shows the ten newest listed products, newest first |
| Shop.FirstPageHasMore | src/app/actions/shopActions.ts:28-47 | the default page has more exactly when over ten products are listed |

## Left out

- Database I/O, Prisma and the transaction engine. Each transaction is one atomic, sequential method, and concurrent checkouts are not modelled.
- Notifications. The Telegram call after checkout is an outbound HTTP request. Its failure cannot change the result.
- The order service pass-throughs. `createOrder`, `getOrderById`, `updateOrderStatus` and `updatePaymentStatus` in `src/lib/services/orderService.ts` return or rethrow the repository's result unchanged. The store methods stand for both layers.
- Authentication, API routes, response wrappers, settings, catalogue CRUD and every React page beyond the POS cart helpers. The same holds for the storefront cart's `persist`/localStorage layer and toasts.
- Floating point. JavaScript numbers, `Prisma.Decimal` and the `Number()` conversions in the dashboard and tracking serialization are all modelled as exact `real`. The serialization is therefore the identity.
- Case folding and trimming. Case-insensitive matching lowers ASCII letters only, and a blank query or field is one made of ASCII whitespace only, while `trim()` also strips Unicode spaces such as U+00A0 and U+3000; database collation, Unicode case mapping and Unicode whitespace are not modelled.
- Clock and randomness. `new Date()` and `Math.random()` are parameters (a date and a suffix). `OrderStore.Store.CreateOrder` does not require the suffix to lie in [1000, 9999]; `Checkout.OrderCodeRoundTrip` assumes it does. A repeated code is refused as the unique index does.
- Creation times are whole numbers from a clock that never goes back. Ledger rows and products carry no timestamp; their "newest first" is the reverse of insertion order, stable on ties.
- Order ties. Two orders may share a `createdAt` (`elapsed` may be 0, as two checkouts in the same millisecond can). `orderBy: { createdAt: 'desc' }` fixes no order among them, and separate `skip`/`take` queries may order them differently. The model lists orders with equal times in reverse insertion order. So the element-wise contract of `Queries.GetOrders`, the first-row clause of `Queries.GetOrdersMeaning`, `Queries.ListOrdersPagesTile` (pages neither overlap nor leave gaps) and the five newest of `Queries.GetMetrics` describe the database only when creation times are distinct. With ties, only the count, the membership, the page length and the newest-first order carry over.
- Alerts.SortByStock: database order among variants with equal stock is unspecified. The model sorts stably, and its contract does not fix the order of ties either.
- Shop.FirstImage: database order among images with equal sortOrder is unspecified. The model picks the earliest, and the contract states only "a lowest sortOrder".
- Shop.ProductsByCategory: the limit is a natural number. A negative limit, a fractional page or a non-numeric page is not modelled, and a negative skip is returned as an error instead of a database exception.
- Queries.GetOrders: `take` is absent or a natural number, and a negative `take` (reverse paging in Prisma) is not modelled. `Queries.ListOrders` always passes at least 1. The service's `page || 1` also treats `NaN` as absent, which is not modelled.
- Foreign keys. The database restrictions that would block `deleteVariant` for a variant with order items or ledger rows are not modelled; the variant is simply removed. The database's refusal of a user id that does not exist and of a duplicate SKU are not modelled either.
- Zod version. `updateVariantSchema` is read with zod 3 semantics, where `.partial()` leaves an omitted field undefined even under `.default()` or `.catch()`. `VariantValidators.UpdateAllOmitted`, `VariantValidators.UpdateAgreesWithCreate` and the "omitted ones stay" of `OrderStore.Store.UpdateVariant` rely on it. Under zod 4 the defaults would apply: an empty patch would reset the stock to 0, and `updateVariant` would log an adjustment row.
- ShopCart.Cart.AddItem: the source increments the existing line object in place, which other holders of the old array would see. The model replaces the line value.
- The `reservedQty` of the POS catalogue is taken as given; no writer of it is modelled.
- The order listing's nested includes (customer, items, variants, images) and the tracking response's `success` wrapper are output shaping and not modelled.
