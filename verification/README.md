# Verified model of the shop backend

A Dafny model of the parts of the backend whose correctness spans several calls, with proofs. Verify with `dafny verify
dfyconfig.toml`.

Conventions: money is in cents, quantities in thousandths of a unit, percentages in hundredths of a percent, as the
decimal columns of `prisma/schema.prisma` store them. A database table is a map in a class; a transaction is a method
that takes full effect or none, with the rollback written out; random identifiers are parameters. Services that change
rows are classes whose methods run the loops of the code and are proved equal to a specification function on the whole
state (`Commerce`, `CategoryService`, `TokenRotation`). The theorems are about runs: any sequence of calls, successful
or not, with any arguments the request objects admit.

## The parts

- **Categories** (`CategoryTree`, `CategoryService`, `CategoryForest`, `CategoryTraversal`). Parent pointers and the
  cached path string. Main facts: the string prefix test is the ancestor test; the LIKE statement with its substring
  expression is the subtree move on the tree; a move is refused exactly when it would close a cycle or take a used slug;
  `findTree` shows every category once whatever the listing order. Ids hold no slash and no LIKE wildcard.
- **Orders and stock** (`OrderRules`, `Ledger`, `Commerce`, `ShopInvariants`, `ShopRuns`, `ShopTheorems`, `ShopRecords`,
  `ShopCharges`, `ShopDiscounts`, `ShopEffects`, `Checkout`, `ReservationBalance`, `ReservationAnomalies`,
  `ReservationRace`, `Money`, with the services in `Database`, `InventoryService`, `OrdersService`). `ShopEffects` says
  of every call exactly when it goes through and what it then writes, without the functions that define it. Every stock
  row is the fold of its movements on every run. Reserved stock equals what open orders hold exactly as long as no
  payment is retried and reserved stock leaves the warehouse it was reserved in. This is an if-and-only-if for one
  status change and a theorem for runs, with two concrete runs that each break one of the two conditions. `homes`, the
  warehouse an order was placed against, is a history variable the code does not store.
- **Refresh tokens** (`TokenRotation`). Chains of replacements, reuse detection, what stays revoked, and how long a
  token works.
- **Imports** (`ImportRows`, `ImportNormalize`, `ImportValidation`, `ImportReports`, `ImportTheorems`, `ImportCommit`,
  `ImportPlacement`, `ImportsService`) and **variant keys** (`VariantKeys`, `VariantAssignments`, `AttributeValues`).
  Validation visits rows group by group with growing sets; the proof gives each row a verdict by its position alone, and
  each reported problem its own condition. Commit relies on that verdict: a batch staged against the same catalogue
  commits exactly when no slug clash, no old combination and no unstorable number is in the way.
- **PNG writer** (`PngBits`, `PngCrc`, `PngFile`, `PngWriter`, `PngCanvas`). The table-driven CRC against a one-bit
  shift register, framing and packing against a reader, the file byte by byte, clipped in-place rectangles.
- **Paging** (`Paging`). Pages reassemble the listing, also when rows are inserted ahead of it between requests.

## Findings

- `src/modules/orders/order-status.rules.ts:20-26` says that a status in the RESERVED phase has its stock held. After
  PAYMENT_FAILED to PENDING_PAYMENT it has not, since the branches at `src/modules/orders/orders.service.ts:342-375`
  move nothing from NONE to RESERVED. The code is modelled as it is: `ReservationAnomalies.RetryOversells` gives a run,
  `ShopTheorems.NetEffectOfAnOrder` and `ReservationBalance.StatusChangeKeepsBalanceIff` the exact condition.
- `src/modules/orders/orders.service.ts:337` looks the default warehouse up again at every status change;
  `ReservationAnomalies.ChangedWarehouseBreaksBalance` shows reserved quantities drifting apart at two warehouses.
- `src/modules/payments/payments.service.ts:38-66` writes the payment row before the order is asked for its new status.
  A failed call leaves the row behind exactly when the order is waiting for a payment
  (`Checkout.FailedPayLeavesRowIff`): on a PAYMENT_FAILED order, without a default warehouse, or when a failed payment
  has to release a missing row (`Checkout.PayFailsIff`). Repeating the call with its key then reports success.
  `ReservationAnomalies.PaymentWithoutOrder` is a run. So an order can be charged more than once: once for every payment
  left behind and once for the payment that makes it PAID (`ShopCharges.ChargesOfAnOrder`;
  `ReservationAnomalies.DoubleCharge` is a run).
- `src/modules/products/attribute-values.helper.ts:14-19` promises that every variant rule is satisfied exactly; the
  code accepts an attribute given twice, and both values enter the key (`AttributeValues.RepeatedValueAccepted`).
  `AttributeValues.AcceptedCoverRules` says when there is one value per rule. The insert that follows then fails on the
  unique pair of variant and attribute (`prisma/schema.prisma:255`), which is not part of this model.
- The combination key is a canonical form for lists over a set of attribute ids exactly as long as no value holds a "|",
  one of the ids and a ":" (`VariantKeys.KeyIsCanonical`, `VariantKeys.CollidesIff`). With one value per attribute, as
  variants are stored, the id of the attribute that sorts first does no harm
  (`VariantAssignments.KeyStandsForAssignment`, `VariantAssignments.AssignmentsCollideIff`).
  `VariantKeys.CollisionExample` is a collision for two UUIDs.
- `src/modules/imports/imports.service.ts:234-249` lets prices and weights pass that their columns, Decimal(12, 2) and
  Decimal(10, 3) at `prisma/schema.prisma:278` and `prisma/schema.prisma:230`, cannot hold: infinite ones and finite
  ones out of range (`ImportPlacement.InfinitePriceIsValid`, `ImportPlacement.InfiniteWeightIsValid`,
  `ImportPlacement.HugePriceIsValid`, `ImportPlacement.HugeWeightIsValid`). `ImportPlacement.ValidNumbersStorable` gives
  the exact ranges, and no batch with a number outside them commits (`ImportsService.ImportsService.Commit`).
## Model

| member | source | states |
|---|---|---|
| CategoryTree.PrefixIsAncestry | src/modules/categories/categories.service.ts:142-170 | The path of X is a prefix of the path of Y exactly when X is Y or an ancestor of Y along parent pointers |
| CategoryTree.PathLengthMeasuresDepth | src/modules/categories/categories.service.ts:30-60 | Path length is a depth measure: n parent steps shorten it by at least 2n |
| CategoryTree.Acyclic | src/modules/categories/categories.service.ts:142-170 | No category is its own proper ancestor |
| CategoryTree.EveryChainEnds | src/modules/categories/categories.service.ts:106-110 | Every chain of parents ends in a parentless category |
| CategoryTree.PathsDistinct | src/modules/categories/categories.service.ts:30-60 | Two categories never share a path |
| CategoryService.LikeIsPrefix | src/modules/categories/categories.service.ts:177-181 | The LIKE pattern path plus percent sign selects exactly the strings that start with the path, wildcard by wildcard, when the path holds no wildcard |
| CategoryService.StatementSelectsDescendants | src/modules/categories/categories.service.ts:177-181 | The rows the UPDATE selects are exactly the category and its descendants |
| CategoryService.StatementMovesSubtree | src/modules/categories/categories.service.ts:173-182 | Writing the moved row and running the string-rewriting UPDATE is the move defined on the tree |
| CategoryService.CategoriesService.Create | src/modules/categories/categories.service.ts:30-80 | Result and whole new table for every input: bad parent, taken slug, or the new row; the table stays valid |
| CategoryService.CategoriesService.Update | src/modules/categories/categories.service.ts:127-206 | Result and whole new table for every input (own parent, missing parent, parent inside the subtree, taken slug, edit, move); the table stays valid |
| CategoryService.CategoriesService.Remove | src/modules/categories/categories.service.ts:208-227 | Missing, refused because of children, or exactly that row gone; the table stays valid |
| CategoryService.CreateKeepsValid | src/modules/categories/categories.service.ts:30-80 | Creation keeps paths equal to parent path + id + slash, foreign keys resolved and slugs unique |
| CategoryService.UpdateKeepsValid | src/modules/categories/categories.service.ts:127-206 | Every update, moves included, keeps them too |
| CategoryService.RemoveKeepsValid | src/modules/categories/categories.service.ts:208-227 | So does removal |
| CategoryService.MoveKeepsValid | src/modules/categories/categories.service.ts:165-182 | Replacing the path prefix in the subtree makes every cached path agree with the new tree |
| CategoryService.MovedChildAgrees | src/modules/categories/categories.service.ts:177-181 | After a move a descendant path still is its parent path followed by its id |
| CategoryService.MoveChangesExactlySubtree | src/modules/categories/categories.service.ts:165-182 | A move changes the moved row and exactly its proper descendants, and in those nothing but the path |
| CategoryService.MoveRefusedIff | src/modules/categories/categories.service.ts:142-170 | A move under an existing category is refused exactly when that category lies in the moved subtree or the slug is taken, and then nothing changes |
| CategoryService.CreateEffect | src/modules/categories/categories.service.ts:30-80 | NotFound exactly for a missing parent, Conflict exactly for a slug another category has (or a used id); else one new row with the requested fields, sort order 0 and active unless given, under the parent path |
| CategoryService.UpdateEffect | src/modules/categories/categories.service.ts:127-206 | After a successful update the category is a root with path /id/ if null was asked for, under the parent asked for with that path in front, or where it was; name, slug, sort order and active flag are those given or as before; every other row keeps all but the path of a moved descendant |
| CategoryService.UpdateReplies | src/modules/categories/categories.service.ts:127-206 | NotFound exactly for a missing category or parent, Conflict exactly for a parent inside the own subtree (itself included) or a slug of another category, nothing else refused and nothing changed then |
| CategoryService.RemoveEffect | src/modules/categories/categories.service.ts:208-227 | Refused exactly with children; else that row is gone and all others stay |
| CategoryService.ReachableTables | src/modules/categories/categories.service.ts:30-227 | After any sequence of create, update and remove: path formula, prefix test = ancestor test, no cycle |
| CategoryForest.MakeNodes | src/modules/categories/categories.service.ts:89-102 | First pass: one childless node per listed category, showing its fields |
| CategoryForest.Hang | src/modules/categories/categories.service.ts:104-111 | One step of the second pass: the node is appended to its parent or to the roots and nothing else changes |
| CategoryForest.HangAll | src/modules/categories/categories.service.ts:104-113 | Second pass: roots and child lists are the nodes of the right ids in listing order |
| CategoryForest.IdsUnderMeaning | src/modules/categories/categories.service.ts:104-111 | The listing order: a row is listed exactly under its own parent, and the lists of two halves of a listing join in order |
| CategoryForest.FindTree | src/modules/categories/categories.service.ts:88-114 | Children of a node are exactly the categories naming it as parent, in listing order; roots are the parentless ones; listing order is otherwise irrelevant |
| CategoryTraversal.ShownCounts | src/modules/categories/categories.service.ts:88-114 | Walking a list of subtrees meets a category as often as subtrees of the list cover it |
| CategoryTraversal.ForestShowsEveryCategoryOnce | src/modules/categories/categories.service.ts:88-114 | Listing the children lists down from the parentless categories shows every category exactly once, whatever the listing order |
| CategoryTraversal.WalkIsShown | src/modules/categories/categories.service.ts:104-113 | Following the children of the built nodes gives that listing |
| CategoryTraversal.BuiltForestShowsEveryCategoryOnce | src/modules/categories/categories.service.ts:88-114 | Walking the node objects findTree returns, from its roots along their children, meets the node of every category exactly once and no other |
| OrderRules.PhaseMoves | src/modules/orders/order-status.rules.ts:4-43 | The phase leaves NONE only on PAYMENT_FAILED to PENDING_PAYMENT, and DEDUCTED never returns to RESERVED |
| OrderRules.EnteredFrom | src/modules/orders/order-status.rules.ts:4-18 | The transition table by the status entered: cancelled from the six statuses up to PROCESSING only |
| OrderRules.PhaseFromHistory | src/modules/orders/order-status.rules.ts:20-43 | The stock phase from the history alone: DEDUCTED exactly when the order was confirmed and neither cancelled nor sent back, RESERVED exactly when neither confirmed nor cancelled and no payment has failed since it last waited |
| OrderRules.HistoryLength | src/modules/orders/order-status.rules.ts:4-18 | A history with k retries ending in a status has at most 2k + that status level transitions |
| OrderRules.HistoryIsShort | src/modules/orders/order-status.rules.ts:4-18 | At most 2k + 9 transitions when the retry edge is taken k times |
| OrderRules.LongestHistory | src/modules/orders/order-status.rules.ts:4-18 | The bound is reached for every k |
| InventoryService.Inventory.EnsureRow | src/modules/inventory/inventory.service.ts:17-23 | An absent row is created with zeros, a present one left alone |
| ShopRecords.StockCallsKeepRecords | src/modules/inventory/inventory.service.ts:33-141 | Receipts and adjustments that go through move whole quantities of whole-unit variants only |
| ShopRecords.SumsAreWhole | src/modules/inventory/inventory.service.ts:33-52 | If all movements of a whole-unit variant are whole, so are its onHand and reserved |
| InventoryService.Inventory.Receive | src/modules/inventory/inventory.service.ts:54-89 | Result and whole new database equal the specified receipt |
| InventoryService.Inventory.Adjust | src/modules/inventory/inventory.service.ts:91-143 | Result and whole new database equal the specified adjustment; refused below the reserved quantity, with nothing kept |
| ShopEffects.ReceiveEffect | src/modules/inventory/inventory.service.ts:54-89 | Goes through exactly for a known variant, a fitting quantity and a warehouse named or default; that row then holds the quantity asked for more, one RECEIPT says so, and nothing else changes |
| ShopEffects.AdjustEffect | src/modules/inventory/inventory.service.ts:91-143 | The same for the amount asked for, refused exactly when less than the reserved quantity would stay |
| InventoryService.Inventory.Reserve | src/modules/inventory/inventory.service.ts:163-192 | Succeeds exactly when onHand - reserved covers the quantity, then adds to reserved and logs one movement |
| InventoryService.Inventory.Release | src/modules/inventory/inventory.service.ts:194-216 | Takes from reserved and logs; fails when the row is missing |
| InventoryService.Inventory.Deduct | src/modules/inventory/inventory.service.ts:218-243 | Takes from onHand and reserved and logs; fails when the row is missing |
| InventoryService.Inventory.ReturnStock | src/modules/inventory/inventory.service.ts:245-268 | Ensures the row, adds to onHand and logs |
| Ledger.PostKeepsExplained | src/modules/inventory/inventory.service.ts:59-78 | A row changed together with its movement stays the fold of its movements |
| Ledger.MoveLinesLogs | src/modules/orders/orders.service.ts:342-375 | Releasing, deducting or returning all lines logs one movement per line and keeps rows explained and availability non-negative |
| Ledger.ReserveLinesLogs | src/modules/orders/orders.service.ts:146-163 | So does reserving all lines |
| Ledger.ReserveLinesSucceedsIff | src/modules/orders/orders.service.ts:146-163 | With one line per variant the reserving loop succeeds exactly when every line is covered by onHand - reserved at the start |
| Ledger.SumLogged | src/modules/inventory/inventory.service.ts:163-268 | What the movements of a list of lines add up to at a row: the lines quantity of that variant |
| ShopTheorems.RowsAreFoldsOfMovements | src/modules/inventory/inventory.service.ts:54-268 | After any run, retries and warehouse changes included: onHand = receipts + adjustments + returns - deductions, reserved = reserves - releases - deductions, reserved at most onHand |
| Money.WithTotal | src/modules/cart/cart.service.ts:27-53 | The accumulating loop returns the once-rounded exact sum, or null when a line has no price |
| Money.SubtotalDrift | src/modules/cart/cart.service.ts:27-53 | Subtotal and the sum of separately rounded line totals differ by at most half a cent a line (and at most (n+1)/2 cents) |
| Money.DriftIsReached | src/modules/orders/orders.service.ts:165-177 | The lower bound is reached for every number of lines |
| Money.UpperDriftIsReached | src/modules/orders/orders.service.ts:165-177 | So is the upper bound |
| Money.WholeQuantitiesDriftNothing | src/modules/cart/cart.service.ts:27-53 | With whole quantities there is no difference |
| Money.ExactIsNonNegative | src/modules/cart/cart.service.ts:27-53 | Totals of non-negative prices and quantities are non-negative |
| Money.DiscountWithinSubtotal | src/modules/promotions/coupons.service.ts:118-123 | For every coupon that creation accepts, 0 <= discount <= subtotal |
| ShopRecords.QuantitiesStayOrderable | src/modules/cart/cart.service.ts:62-87 | What the quantity checks are for: after any run stock, carts and orders hold whole quantities of whole-unit variants, and carts and orders only known variants in at least their minimum quantity |
| ShopRecords.AddItemKeepsRecords | src/modules/cart/cart.service.ts:108-126 | addItem keeps that, the sum with the quantity already there included |
| ShopRecords.UpdateItemKeepsRecords | src/modules/cart/cart.service.ts:128-148 | So does updateItem |
| OrdersService.Carts.AddItem | src/modules/cart/cart.service.ts:108-126 | Result and whole new database equal the specified call: both checks, then the line with the summed quantity |
| OrdersService.Carts.UpdateItem | src/modules/cart/cart.service.ts:128-148 | Missing line, removal at zero, check, or the new quantity; whole new database |
| ShopEffects.AddItemEffect | src/modules/cart/cart.service.ts:108-126 | Goes through exactly for a known, available variant in a fitting quantity of at least the minimum; then that quantity is added to that variant in that cart, and nothing else changes |
| ShopEffects.UpdateItemEffect | src/modules/cart/cart.service.ts:128-148 | NotFound exactly without such a line; else the quantity is set, or the line removed for 0, under the same conditions |
| ShopInvariants.WithLineMeaning | src/modules/cart/cart.service.ts:108-126 | Setting a line keeps one line per variant and changes that variant only |
| ShopInvariants.WithoutLineMeaning | src/modules/cart/cart.service.ts:128-148 | Removing a line drops that variant only |
| ShopTheorems.CartsStayTidy | src/modules/cart/cart.service.ts:108-148 | After any run: one positive line per variant; addItem adds to and updateItem sets that variant and no other |
| ShopRecords.StoredTotalsAgree | src/modules/orders/orders.service.ts:165-177 | After any run the subtotal of an order is within half a cent a line of the sum of its stored line totals, and equal to it when its variants are sold in whole units |
| OrdersService.Coupons.Create | src/modules/promotions/coupons.service.ts:20-57 | Percentage above 100 refused, taken code refused, else the row with usedCount 0 |
| OrdersService.Coupons.Update | src/modules/promotions/coupons.service.ts:71-92 | Missing coupon, or the given fields replaced; kind, value and usedCount stay |
| OrdersService.Coupons.Validate | src/modules/promotions/coupons.service.ts:95-124 | Accepts exactly under the six conditions; the discount is the percentage of the subtotal to half a cent, or the fixed amount as far as the subtotal goes |
| OrdersService.Coupons.Redeem | src/modules/promotions/coupons.service.ts:127-137 | One guarded UPDATE: counts up exactly when below the limit |
| Money.DiscountDeducts | src/modules/promotions/coupons.service.ts:118-123 | A percentage of the subtotal to half a cent, or the fixed amount as far as the subtotal goes |
| ShopDiscounts.DiscountsAreKept | src/modules/promotions/coupons.service.ts:95-124 | After any run the discount of every order is what its coupon promises for its subtotal (0 without a coupon), coupon updates in between notwithstanding, and the total is the rest |
| ShopEffects.CreateCouponEffect | src/modules/promotions/coupons.service.ts:20-57 | Refused exactly for a percentage above 100 or a used code; else stored as given with no uses |
| ShopEffects.UpdateCouponEffect | src/modules/promotions/coupons.service.ts:71-92 | Each field takes the value given for it or stays; kind, value and uses stay |
| ShopTheorems.CouponsCountTheirOrders | src/modules/promotions/coupons.service.ts:127-137 | After any run: usedCount = number of orders carrying the coupon; 0 <= discount <= subtotal and total = subtotal - discount >= 0 for every order |
| ShopCharges.LimitsBreakIff | src/modules/promotions/coupons.service.ts:71-92 | A call breaks a usage limit exactly when it is an update that sets the limit below the uses there have been |
| ShopCharges.LimitsAreRespected | src/modules/promotions/coupons.service.ts:127-137 | After every run without such an update, usedCount is at most maxUses for every coupon |
| OrdersService.Orders.ReserveAll | src/modules/orders/orders.service.ts:146-178 | The reserving loop is the specified all-lines reservation |
| OrdersService.Orders.WriteOrder | src/modules/orders/orders.service.ts:127-187 | Order row, lines with snapshots and totals, and first history entry |
| OrdersService.Orders.Placement | src/modules/orders/orders.service.ts:113-193 | The transaction callback: on success exactly the specified state |
| OrdersService.Orders.PlaceOrder | src/modules/orders/orders.service.ts:113-193 | The transaction: the specified state, or none of it |
| OrdersService.Orders.CreateFromCart | src/modules/orders/orders.service.ts:75-216 | Result and whole new database for every input, from the idempotency key to the commit |
| OrdersService.Orders.MoveAll | src/modules/orders/orders.service.ts:342-375 | The release, deduct and return loops |
| OrdersService.Orders.MoveStock | src/modules/orders/orders.service.ts:342-375 | The three stock branches; every other pair of phases moves nothing |
| OrdersService.Orders.UpdateStatus | src/modules/orders/orders.service.ts:318-404 | Result and whole new database: unknown order, forbidden transition, missing warehouse, missing row, or stock moved, status set and history appended |
| OrdersService.Orders.ProcessStockRelease | src/jobs/stock-release/stock-release.processor.ts:19-41 | Cancels through updateStatus exactly when the order still waits for payment |
| ShopEffects.TimeoutEffect | src/jobs/stock-release/stock-release.processor.ts:19-41 | An order is cancelled exactly when it still waits for its payment (and a default warehouse and its rows exist), what it held is given back there, and every other order stays |
| Checkout.PlacementCommitsIff | src/modules/orders/orders.service.ts:113-193 | The transaction commits exactly when the coupon is still redeemable and every line is covered; otherwise nothing changes |
| Checkout.PlacementEffect | src/modules/orders/orders.service.ts:113-193 | On commit each line is reserved once, the cart is empty, other carts, orders, coupons and onHand are untouched, and the coupon counts one use |
| Checkout.CheckoutSucceedsIff | src/modules/orders/orders.service.ts:75-216 | The whole call succeeds exactly when the cart is non-empty and priced, a default warehouse exists, the coupon is accepted and every line is covered; otherwise nothing changes |
| Checkout.CheckoutIsIdempotent | src/modules/orders/orders.service.ts:80-88 | Repeating a request with its idempotency key returns the first order and changes nothing |
| ShopEffects.CheckoutEffect | src/modules/orders/orders.service.ts:113-193 | The new order row: user, coupon and key of the request, one item for every cart line at its price with the rounded line total, the subtotal rounded once, the total after the discount, the first history entry |
| ShopInvariants.MovedStockLogs | src/modules/orders/orders.service.ts:342-375 | A stock branch that goes through logs one movement per line of the kind its phases call for, and keeps rows explained and availability non-negative |
| ShopInvariants.StatusNetOk | src/modules/orders/orders.service.ts:342-375 | A status change moves every order net effect to that of its new phase |
| ShopRuns.UpdateStatusKeepsInv | src/modules/orders/orders.service.ts:318-404 | Status changes keep the table invariants |
| ShopRuns.CreateFromCartKeepsInv | src/modules/orders/orders.service.ts:75-216 | Order creation keeps them |
| ShopRuns.RunKeepsInv | src/modules/orders/orders.service.ts:62-404 | Every run of calls keeps them: ledger, histories, per-order net effects, carts, coupon counts, refunds, unique keys |
| ShopTheorems.HistoriesAreChains | src/modules/orders/orders.service.ts:180-187 | Each history starts null to PENDING_PAYMENT, links allowed transitions, ends at the current status and has at most 2k + 9 transitions |
| ShopTheorems.NetEffectOfAnOrder | src/modules/orders/orders.service.ts:330-403 | The net stock effect of an order is (0,q), (-q,0) or (0,0) by phase, less q reserved for every retry; so it depends on the phase alone if and only if there was no retry |
| ShopTheorems.NetEffectFromHistory | src/modules/orders/orders.service.ts:330-403 | After any run, from the history alone: net onHand of an order is -q exactly when it was confirmed and neither cancelled nor sent back, else 0; net reserved is q while it is open, else 0, less q for every time it was made to wait again |
| ShopTheorems.NetEffectUnlessRetried | src/modules/orders/orders.service.ts:330-403 | For an order never retried: net reserved is q exactly when its history holds none of CONFIRMED, PAYMENT_FAILED, CANCELLED |
| ShopEffects.StatusMovesStock | src/modules/orders/orders.service.ts:342-375 | By the two statuses alone: confirming takes the lines off hand and reserved, a failed payment or a cancellation before confirmation off reserved, a return or a later cancellation puts them back on hand, anything else (SHIPPED to DELIVERED, say) leaves the stock as it is; always at the default warehouse, nowhere else |
| ShopEffects.StatusWritesOrder | src/modules/orders/orders.service.ts:377-403 | Status and history entry are written and nothing else of any order |
| ShopEffects.StatusReplies | src/modules/orders/orders.service.ts:317-375 | NotFound, Conflict and a missing row: which refuses what, and nothing changes then |
| ReservationBalance.StatusChangeKeepsBalanceIff | src/modules/orders/orders.service.ts:330-375 | From a balanced state a status change keeps reserved = open orders exactly when it is not the retry edge and reserved stock leaves its own warehouse |
| ShopRecords.SettledIsRecorded | src/modules/orders/orders.service.ts:337 | After any run that condition can be read off the stored movements: every reservation of the order was made at the default warehouse of now |
| ReservationBalance.SettledRunsDoNotOversell | src/modules/orders/orders.service.ts:318-404 | After every run of such changes: reserved = sum over orders in the RESERVED phase, and 0 <= reserved <= onHand, at every row |
| ReservationBalance.PlainRunsDoNotOversell | src/modules/orders/orders.service.ts:318-404 | The same with a fixed default warehouse and no retry edge |
| ReservationAnomalies.RetryOversells | src/modules/orders/order-status.rules.ts:4-18 | A run with one retry ends with nothing on hand, reserved at -1 unit and one unit reading as available |
| ReservationAnomalies.ChangedWarehouseBreaksBalance | src/modules/orders/orders.service.ts:337 | A run with a changed default warehouse releases at a warehouse that reserved nothing |
| ReservationAnomalies.RetryRunKeepsWarehouse | src/modules/orders/order-status.rules.ts:4-18 | The first run keeps one default warehouse, so it breaks only the no-retry condition |
| ReservationAnomalies.MoveRunNeverRetries | src/modules/orders/orders.service.ts:337 | The second run takes no retry edge, so it breaks only the warehouse condition |
| ReservationRace.NoInterleavingOversells | src/modules/inventory/inventory.service.ts:171-191 | Under any interleaving of single-line reservations, aborts, commits and receipts: reserved = grants not given back, and never above onHand |
| ReservationRace.GrantedIff | src/modules/inventory/inventory.service.ts:163-192 | In any interleaving a line is granted exactly when what is on hand covers it beside all grants to committed orders and orders in flight; only its own order goes otherwise |
| ReservationRace.OnlyCommittedOrdersRemain | src/modules/inventory/inventory.service.ts:171-191 | Aborted orders leave no trace once nothing is in flight |
| OrdersService.Payments.Pay | src/modules/payments/payments.service.ts:22-77 | Result and whole new database: known key, unknown or wrong-status order, payment row written before the status change |
| OrdersService.Payments.Refunded | src/modules/payments/payments.service.ts:79-127 | The sum of the refunds of a payment |
| OrdersService.Payments.MakeRefund | src/modules/payments/payments.service.ts:79-127 | Result and whole new database: unknown payment, wrong status, too much, or the refund row and the new status |
| ShopEffects.PayEffect | src/modules/payments/payments.service.ts:22-77 | A payment row for the total of the order is written, SUCCEEDED or FAILED, exactly for a waiting order; a call that goes through makes it PAID or PAYMENT_FAILED |
| ShopEffects.RefundEffect | src/modules/payments/payments.service.ts:79-127 | Accepted exactly when the payment succeeded and still covers the amount; the amount asked for is entered, and the payment reads REFUNDED exactly when nothing is left |
| Checkout.PayGoesThroughIff | src/modules/payments/payments.service.ts:22-77 | A payment makes the order PAID exactly when it was PENDING_PAYMENT and a default warehouse exists |
| Checkout.FailedPayLeavesRowIff | src/modules/payments/payments.service.ts:38-66 | A failed call changes nothing exactly when the order is unknown or not waiting for a payment; in every other failure exactly the payment row stays, and the same key then reports success |
| Checkout.PayFailsIff | src/modules/payments/payments.service.ts:38-66 | For a waiting order: refused as a transition exactly when PAYMENT_FAILED, for want of a default warehouse exactly when PENDING_PAYMENT without one, by the database exactly when a failed payment has to release a row that is not there |
| Checkout.PayAfterFailureLeavesRow | src/modules/payments/payments.service.ts:38-66 | On a PAYMENT_FAILED order the call fails and leaves its payment row behind |
| Checkout.PayWithoutWarehouseLeavesRow | src/modules/payments/payments.service.ts:38-66 | On a PENDING_PAYMENT order without a default warehouse too, and the order keeps waiting |
| ReservationAnomalies.PaymentWithoutOrder | src/modules/payments/payments.service.ts:38-66 | A concrete run that ends with a succeeded payment of an order still in PAYMENT_FAILED |
| ShopCharges.VainPaymentsFail | src/modules/payments/payments.service.ts:38-66 | A payment that is written for a waiting order is in vain exactly when the order is PAYMENT_FAILED or there is no default warehouse; otherwise the order is PAID |
| ShopCharges.ChargesOfAnOrder | src/modules/payments/payments.service.ts:38-66 | After any run an order has been charged once for every payment in vain and at most once more, and not once more while it is waiting |
| ShopCharges.ChargedOnce | src/modules/payments/payments.service.ts:38-66 | More than one charge needs a payment in vain, and two payments in vain make more than one charge |
| ShopCharges.RetryChargesTwice | src/modules/payments/payments.service.ts:38-66 | Paying a PAYMENT_FAILED order, making it wait again and paying once more charges its total twice |
| ReservationAnomalies.DoubleCharge | src/modules/payments/payments.service.ts:38-66 | A concrete run that ends so |
| ShopRuns.PayKeepsInv | src/modules/payments/payments.service.ts:22-77 | pay keeps the table invariants, failing calls included |
| ShopTheorems.RefundsAreCovered | src/modules/payments/payments.service.ts:79-127 | After any run refunds never exceed the payment, and it is REFUNDED exactly when they add up to it |
| TokenRotation.TokensService.IssueTokenPair | src/modules/auth/tokens.service.ts:46-98 | A new live row under the fresh id |
| TokenRotation.TokensService.RotateRefreshToken | src/modules/auth/tokens.service.ts:100-146 | Result and whole new table for every presented token |
| TokenRotation.TokensService.Revoke | src/modules/auth/tokens.service.ts:148-155 | Revokes the named token if it is live |
| TokenRotation.TokensService.RevokeAllForUser | src/modules/auth/tokens.service.ts:157-162 | Revokes exactly the live tokens of the user |
| TokenRotation.RotationMeaning | src/modules/auth/tokens.service.ts:100-146 | Rotation succeeds exactly for a genuine, known, live, unexpired, matching token; it revokes and links that row, adds one and touches no other |
| TokenRotation.IssuedTokenRotates | src/modules/auth/tokens.service.ts:46-146 | Over runs: a token issued by a login or an exchange can be exchanged, after any further calls, exactly when it is genuine and presented with its own hash, its expiry has not passed, and no call since has ended it |
| TokenRotation.WorksWhileSpared | src/modules/auth/tokens.service.ts:46-162 | Which calls end a token: its own exchange or logout, a logout everywhere of its user, or reuse of one of the revoked tokens of its user; nothing else does |
| TokenRotation.LogoutEffect | src/modules/auth/tokens.service.ts:148-162 | A genuine token presented for logout is no longer live and no other token changes; a logout everywhere ends exactly the live tokens of the user |
| TokenRotation.ReuseRevokesEverything | src/modules/auth/tokens.service.ts:114-125 | Presenting a revoked token is refused, leaves its user without a live token and other users alone |
| TokenRotation.ChainsAreSound | src/modules/auth/tokens.service.ts:135-143 | Chains have no cycle and at most one live token, the last |
| TokenRotation.RotateKeepsInv | src/modules/auth/tokens.service.ts:100-146 | Rotation keeps links injective and pointing to younger tokens of the same user, and never revives or alters a revoked row |
| TokenRotation.RevokedStaysRevoked | src/modules/auth/tokens.service.ts:46-162 | Over any run a revoked token stays exactly as it is |
| TokenRotation.NoDoubleRotation | src/modules/auth/tokens.service.ts:100-146 | In no run is a token rotated successfully twice |
| TokenRotation.ReachableChains | src/modules/auth/tokens.service.ts:46-162 | In every reachable table links are injective, chains acyclic and of one user, and all but the last token revoked |
| Paging.FindAll | src/modules/products/products.service.ts:241-255 | Items are the next limit rows after the cursor; nextCursor is the last of them exactly when more rows follow |
| Paging.RequestPage | src/modules/products/products.service.ts:279-293 | A request after the first `done` rows gets the next ones even if rows were inserted ahead of the listing |
| Paging.NewerRowsDoNotShiftPages | src/modules/orders/orders.service.ts:266-280 | Rows that sort before the cursor do not change what follows it |
| Paging.FollowPages | scripts/seed-real-catalog.ts:663-672 | Following nextCursor until null terminates and yields the first listing, no row missing or repeated, for every limit of at least 1 |
| PngCrc.ByteStep | scripts/lib/placeholder-image.ts:31 | Clocking a byte in bit by bit equals eight single-bit steps of register xor byte |
| PngCrc.TableStep | scripts/lib/placeholder-image.ts:34-36 | Table lookup and an 8-bit shift equal eight single-bit steps |
| PngCrc.MakeTable | scripts/lib/placeholder-image.ts:27-32 | Entry n of the table is n after eight steps |
| PngCrc.Next | scripts/lib/placeholder-image.ts:34-36 | One loop step clocks one byte into the reference register |
| PngCrc.Crc32 | scripts/lib/placeholder-image.ts:25-38 | For every byte sequence the table-driven CRC is the bit-at-a-time CRC-32 of section 3.4 of RFC 2083 |
| PngCrc.CrcOfIend | scripts/lib/placeholder-image.ts:25-38 | A known value: the check value of the empty IEND chunk is AE426082 |
| PngBits.BitOfXor | scripts/lib/placeholder-image.ts:31 | A single-bit step is linear over xor |
| PngFile.BigRoundTrip | scripts/lib/placeholder-image.ts:41-45 | Four big-endian bytes read back as the number |
| PngFile.MakeChunk | scripts/lib/placeholder-image.ts:40-47 | The framed chunk, or failure for a length of 2^32 or more |
| PngFile.ChunkRoundTrip | scripts/lib/placeholder-image.ts:40-47 | A chunk reader that checks length and CRC gets every written chunk back, whatever follows it |
| PngFile.PackRow | scripts/lib/placeholder-image.ts:62-66 | One pass writes the filter byte and one row behind the finished part |
| PngFile.Pack | scripts/lib/placeholder-image.ts:60-66 | The packing loop yields the packed scanlines, in place |
| PngFile.ScanlinesRoundTrip | scripts/lib/placeholder-image.ts:60-66 | Stripping the filter bytes gives the pixel buffer back |
| PngFile.PackedAt | scripts/lib/placeholder-image.ts:60-66 | Byte k of row y stands behind y whole scanlines and a filter byte 0 |
| PngWriter.EncodePng | scripts/lib/placeholder-image.ts:49-75 | The specified file, or failure when a 32-bit field overflows |
| PngWriter.FileHasThreeChunks | scripts/lib/placeholder-image.ts:69-74 | The file parses into the signature and exactly IHDR, IDAT, IEND (section 3.2 of RFC 2083) |
| PngWriter.FileBytes | scripts/lib/placeholder-image.ts:49-75 | The file byte by byte: signature, 13-byte IHDR with width, height, 8, 2, 0, 0, 0, the IDAT chunk around the compressed scanlines, and the twelve bytes of IEND |
| PngWriter.PngRoundTrip | scripts/lib/placeholder-image.ts:49-75 | Encoding succeeds exactly when the fields fit, and a full reader gets width, height and pixels back |
| PngCanvas.Canvas.constructor | scripts/lib/placeholder-image.ts:77-90 | Every pixel has the background colour |
| PngCanvas.PutColour | scripts/lib/placeholder-image.ts:100-102 | Writes one pixel and leaves every other byte triple that does not overlap alone |
| PngCanvas.Canvas.SetPixel | scripts/lib/placeholder-image.ts:99-102 | Changes exactly one pixel |
| PngCanvas.Canvas.FillRect | scripts/lib/placeholder-image.ts:92-105 | Changes exactly the pixels of the rectangle clipped to the canvas |
| PngCanvas.Canvas.ToPng | scripts/lib/placeholder-image.ts:107-109 | Encodes the buffer |
| PngCanvas.OffsetsDiffer | scripts/lib/placeholder-image.ts:99-102 | Different pixels never share a byte |
| PngCanvas.PixelInScanline | scripts/lib/placeholder-image.ts:92-109 | Red, green and blue of pixel (x, y) are bytes 3x to 3x + 2 of scanline y behind its filter byte |
| PngCanvas.RectanglesTile | scripts/lib/placeholder-image.ts:92-105 | Rectangles side by side or above each other make one, a one by one rectangle is its corner pixel, an empty one is nothing |
| VariantKeys.PermutationsShareKey | src/modules/products/attribute-values.helper.ts:61-68 | The order of the values never matters |
| VariantKeys.KeyIsCanonical | src/modules/products/attribute-values.helper.ts:61-68 | For any set of attribute ids without ":" or "&#124;": equal keys exactly for permutations, when no value holds a "&#124;" followed by one of these ids and a ":" |
| VariantKeys.CollidesIff | src/modules/products/attribute-values.helper.ts:61-68 | That condition is exact for every set of ids: lists over the ids, made of pieces of one value, can share a key without being permutations if and only if the value holds a "&#124;", one of the ids and a ":" |
| VariantKeys.JoinInjective | src/modules/products/attribute-values.helper.ts:61-68 | Joining entries loses nothing, although values may hold both separators, as long as no part holds a "&#124;" and the beginning of a later entry of the other list |
| VariantKeys.FirstPartNotShorter | src/modules/products/attribute-values.helper.ts:61-68 | Then two readings of one key have first entries of the same length |
| VariantKeys.EntryRoundTrip | src/modules/products/attribute-values.helper.ts:61-68 | An entry with a plain id splits back at its first colon |
| VariantKeys.KeyOfPair | src/modules/products/attribute-values.helper.ts:61-68 | The form of a key: id, colon, value, in the order of the ids, with a bar between |
| VariantKeys.BarAndIdCollide | src/modules/products/attribute-values.helper.ts:61-68 | For any two attributes p before q and all u, m and w: the assignments p = u&#124;q:m, q = w and p = u, q = m&#124;q:w share their key although they are no permutations |
| VariantKeys.CollisionExample | src/modules/products/attribute-values.helper.ts:61-68 | One concrete such pair, for two UUIDs that differ in their last digit |
| Sorting.SortSorts | src/modules/products/attribute-values.helper.ts:61-68 | Sorting yields a sorted permutation |
| Sorting.SortedIsUnique | src/modules/products/attribute-values.helper.ts:61-68 | There is only one sorted permutation when tied elements are equal |
| AttributeValues.RuleMap | src/modules/products/attribute-values.helper.ts:25-27 | The map holds the last rule of every attribute |
| AttributeValues.CheckEntries | src/modules/products/attribute-values.helper.ts:30-38 | True exactly when every given value names an attribute of the category and fits its kind |
| AttributeValues.ValidateAttributeValues | src/modules/products/attribute-values.helper.ts:20-59 | Returns the values exactly when each names a rule it satisfies and every demanded rule has a value; else BadRequest |
| AttributeValues.AcceptedCoverRules | src/modules/products/attribute-values.helper.ts:40-47 | Accepted variant values cover exactly the rules; one value each exactly when the numbers are equal |
| AttributeValues.MayBeLeftOut | src/modules/products/attribute-values.helper.ts:20-59 | From an accepted list an attribute may be left out exactly when no rule demands it: never a variant rule, an informational one unless it is required |
| AttributeValues.RepeatedValueAccepted | src/modules/products/attribute-values.helper.ts:20-59 | An attribute given twice is accepted, and both values enter the key |
| VariantAssignments.KeyStandsForAssignment | src/modules/products/attribute-values.helper.ts:61-68 | With one value per attribute, equal keys mean the same assignment, when no value holds a "&#124;", the id of an attribute behind the first one and a ":" |
| VariantAssignments.AssignmentsCollideIff | src/modules/products/attribute-values.helper.ts:61-68 | Exact again: two different assignments made of pieces of one value can share a key if and only if the value holds a "&#124;", the id of an attribute that some other one comes before, and a ":" |
| VariantAssignments.PartsAreBehind | src/modules/products/attribute-values.helper.ts:61-68 | In the key of an assignment every entry but the first is of an attribute that another one comes before |
| ImportNormalize.SlugifyMakesSlugs | src/common/utils/slugify.ts:2-8 | Every result is words of letters and digits with single inner hyphens |
| ImportNormalize.SlugifyFixesSlugs | src/common/utils/slugify.ts:2-8 | A lower-case slug is its own slug |
| ImportNormalize.SlugifyJoinsWords | src/common/utils/slugify.ts:2-8 | The slug of a text is the words of its trimmed lower case, joined by single hyphens |
| ImportNormalize.NormalizeRow | src/modules/imports/imports.service.ts:48-68 | Trimmed fields, blank optionals absent, and each attribute key mapped to its last non-blank column |
| ImportNormalize.NormalizedOnce | src/modules/imports/imports.service.ts:48-68 | Normalising the stored record again gives the same row |
| ImportNormalize.ColumnsAreRead | src/modules/imports/imports.service.ts:48-68 | Every column reaches the field of its name, trimmed, upper-cased or slugified as the field asks |
| ImportNormalize.MissingColumns | src/modules/imports/imports.service.ts:48-68 | A missing column leaves a required field empty and an optional one absent |
| ImportNormalize.ColumnOfKey | src/modules/imports/imports.service.ts:50-54 | An attribute key is what follows the prefix, trimmed and in lower case; a column without it is none |
| ImportRows.GroupKeyMeaning | src/modules/imports/imports.service.ts:202-206 | Equal group keys mean equal category slug and equal case-folded name |
| ImportRows.GroupRows | src/modules/imports/imports.service.ts:201-207 | Groups in order of first appearance, each with its rows in file order |
| ImportValidation.CheckVariantRules | src/modules/imports/imports.service.ts:261-274 | The problems of the variant attributes, in rule order |
| ImportValidation.CheckInfoRules | src/modules/imports/imports.service.ts:275-288 | The problems of the informational attributes, in rule order |
| ImportValidation.CheckRow | src/modules/imports/imports.service.ts:223-317 | The problems of a row in reporting order, and the grown SKU and key sets |
| ImportValidation.SkusSeen | src/modules/imports/imports.service.ts:209-257 | The accumulated set holds exactly the SKUs of rows checked earlier |
| ImportValidation.KeysSeen | src/modules/imports/imports.service.ts:218-304 | The per-group set holds exactly the keys of the earlier rows of the product |
| ImportValidation.CheckGroup | src/modules/imports/imports.service.ts:217-319 | A pass over one group reports its rows and grows the SKU set by theirs |
| ImportValidation.ValidateRows | src/modules/imports/imports.service.ts:147-322 | One report entry per row, in file order, each as the definition by position says, although rows are checked group by group |
| ImportValidation.SortingRestoresFileOrder | src/modules/imports/imports.service.ts:321 | Sorting by row number undoes the grouping |
| ImportTheorems.ValidMeans | src/modules/imports/imports.service.ts:223-317 | A row is VALID exactly when its fields are in order, its SKU is new to catalogue and earlier rows, and its combination is new to its product |
| ImportReports.ReportedIff | src/modules/imports/imports.service.ts:223-317 | A problem stands in the report on a row exactly when the row has it, each of the fifteen by its own condition on the row, the catalogue and the other rows |
| ImportReports.ValidIff | src/modules/imports/imports.service.ts:223-317 | A row is VALID exactly when sku, name, category, brand, price, unit, weight and every attribute value are in order, its SKU is new, and its combination is new to its product or it is the only row |
| ImportReports.CheckedBeforeMeans | src/modules/imports/imports.service.ts:201-217 | A row is checked before another exactly when its product appears first in the file, or it comes first among rows of one product |
| ImportReports.ReportIsRanked | src/modules/imports/imports.service.ts:223-309 | The problems of a row are reported in a fixed order |
| ImportReports.ValidValueIff | src/modules/attributes/attribute-value.validator.ts:7-49 | Which texts are values of an attribute: a number unless NaN, a whole number for integers, one of the options, true or false, anything |
| ImportReports.ValuesAre | src/modules/imports/imports.service.ts:290-297 | The values that enter a key: one for every variant attribute the row gives a value for |
| ImportTheorems.ValidSkusDiffer | src/modules/imports/imports.service.ts:251-257 | Two VALID rows have different SKUs outside the catalogue |
| ImportTheorems.ValidKeysDiffer | src/modules/imports/imports.service.ts:290-309 | Two VALID rows of one product have different keys, and their values are not permutations |
| ImportTheorems.ValidRowsStayValid | src/modules/imports/imports.service.ts:147-322 | Any choice of the VALID rows, in any order, is all VALID when validated alone |
| ImportCommit.ProductFor | src/modules/imports/imports.service.ts:385-409 | The product found first among those of the category and exact name; without one, a new draft, or an error exactly when its slug is taken |
| ImportCommit.WriteRow | src/modules/imports/imports.service.ts:411-439 | A variant with SKU, key and weight, and its price, or the violated constraint: SKU, combination, or a price or weight beyond its decimal column |
| ImportCommit.NumbersAreStored | src/modules/imports/imports.service.ts:411-439 | The stored price is the number in the row to the nearest cent, the stored weight to the nearest thousandth, halves away from zero |
| ImportCommit.VariantWritten | src/modules/imports/imports.service.ts:411-445 | Writing a row adds one new variant and price and keeps what earlier rows established |
| ImportCommit.ProductsMatchRows | src/modules/imports/imports.service.ts:356-445 | Two committed rows share a product exactly when they share category slug and case-folded name |
| ImportCommit.StagedSkuIsFree | src/modules/imports/imports.service.ts:251-257 | What validation established: no committed or old variant has the SKU of a row still to come |
| ImportCommit.StagedClashIsOld | src/modules/imports/imports.service.ts:290-304 | A combination clash at the product of a staged row can only be with a variant that product had before the batch |
| ImportPlacement.FirstOfGroup | src/modules/imports/imports.service.ts:371-375 | The row whose data opens a group is the first of the batch with that category slug and folded name |
| ImportPlacement.MatchesStay | src/modules/imports/imports.service.ts:385-387 | Products the batch has created never match a later group, so each group finds what the catalogue held at the start |
| ImportPlacement.NewProductPlaced | src/modules/imports/imports.service.ts:396-409 | A created product gets a slug no other product has, under the data of its first row |
| ImportPlacement.NewProductsAreUsed | src/modules/imports/imports.service.ts:385-409 | A batch creates no product but those its rows go to |
| ImportPlacement.SlugErrorExplained | src/modules/imports/imports.service.ts:396-409 | A taken slug belongs to an old product or to another product this batch has to create |
| ImportPlacement.ClashExplained | src/modules/imports/imports.service.ts:411-431 | A taken combination is one that the existing product the row goes to already has |
| ImportPlacement.CommittedWasPossible | src/modules/imports/imports.service.ts:370-446 | A finished commit had no slug clash, no old combination and only numbers its columns hold |
| ImportPlacement.ValidNumbersStorable | src/modules/imports/imports.service.ts:234-249 | The numbers of a VALID row can be stored exactly when its price is finite and below 9999999999.995 and its weight finite and within 9999999.9995 of zero |
| ImportPlacement.InfinitePriceIsValid | src/modules/imports/imports.service.ts:234-237 | A concrete row with an infinite price is VALID and cannot be stored |
| ImportPlacement.InfiniteWeightIsValid | src/modules/imports/imports.service.ts:244-249 | A concrete row with an infinite weight is VALID and cannot be stored |
| ImportPlacement.HugePriceIsValid | src/modules/imports/imports.service.ts:234-237 | So is a row with the finite price 1e12 |
| ImportPlacement.HugeWeightIsValid | src/modules/imports/imports.service.ts:244-249 | So is a row with the finite weight 20000000 |
| ImportsService.OpenGroup | src/modules/imports/imports.service.ts:371-409 | The group gets the product it has to get, or an explained error |
| ImportsService.CommitMember | src/modules/imports/imports.service.ts:411-445 | One more row of the group is written under its product, or an error with its cause |
| ImportsService.CommitGroup | src/modules/imports/imports.service.ts:371-446 | All rows of a group are written under its product, or an error with its cause |
| ImportsService.CommitRows | src/modules/imports/imports.service.ts:356-446 | All rows are written, which proves that nothing was in the way, or an error with its cause |
| ImportsService.CloseRows | src/modules/imports/imports.service.ts:448-460 | Resolved rows become COMMITTED with their resolution, the others SKIPPED |
| ImportsService.UploadStages | src/modules/imports/imports.service.ts:104-126 | The VALID rows of an upload are all valid among themselves against the same catalogue |
| ImportsService.CommitBatch | src/modules/imports/imports.service.ts:347-466 | On the state the transaction works on: a staged batch with valid rows commits exactly when no slug clash, no old combination and no unstorable number is in the way |
| ImportsService.ClosedBatchIsDone | src/modules/imports/imports.service.ts:448-460 | What the row-by-row facts add up to for the whole batch |
| ImportsService.ImportsService.Upload | src/modules/imports/imports.service.ts:79-145 | A PREVIEWED batch with one row per record, VALID exactly when nothing is wrong, so that the VALID rows are staged against the catalogue; no records is refused |
| ImportsService.ImportsService.Commit | src/modules/imports/imports.service.ts:339-477 | Success: exactly one new variant per VALID row with its SKU, combination key, weight and price as the text of the row reads, to the nearest cent; rows COMMITTED iff VALID else SKIPPED; each under the existing product of its category and exact name, else under a new one with the name, slug and kind its first row gives; products shared iff slug and folded name agree, none created in vain; batch closed. A second commit is refused, and an error changes nothing. A staged batch commits exactly when no product to be created has a used or shared slug, no row goes to an existing product with its combination, and every number can be stored |

## Left out

- Controllers, modules, DTO decorators, guards, permissions (`authorizeStatusChange` among them), configuration: declarative wiring; DTO bounds are preconditions.
- Mail, notifications, object storage, Redis, queue delivery, audit log, health checks: input and output; the queue only decides when the stock-release step happens.
- Signing and verifying tokens, password and token hashing, random ids, order numbers: a presented token says whether it verifies and what it hashes to; new ids are parameters.
- CSV parsing, deflate: foreign code; imports start from parsed records, and `PngWriter.PngRoundTrip` assumes that inflating undoes deflating for the data at hand.
- Floating-point error of `Number(...)` arithmetic: exact integers and numbers instead; and overflow of the decimal columns of the shop tables (quantities, prices, totals), which is modelled for imported prices and weights only.
- Failures of a transaction that depend on the database's own limits: its time limit, and the size limit of an index entry (a SKU, slug or combination key of several kilobytes).
- Database isolation beyond atomic transactions and atomic single statements: whole calls are the steps of runs; only `ReservationRace` interleaves single statements, so nothing is claimed for concurrent `adjust`, `updateStatus`, `refund` or `rotateRefreshToken`.
- The foreign keys that keep a category with products or attributes from being removed.
- Category slugs derived from names, images and SEO fields: `create` and `update` receive the slug they would compute.
- Price list resolution: the prices of a user's list are a parameter of order creation.
- Order fields without influence on the calls modelled: number, shipping address and fee, snapshots of names and attributes, timestamps, cancel reason, actors.
- Cart items are addressed by their variant instead of their own id, and `removeItem` and `clear` are left out as easy cases of `updateItem`.
- Coupons are keyed by code, and an empty idempotency key is not modelled (the code looks it up as absent but stores it).
- Warehouse administration: one step that sets the default warehouse to anything.
- The order in which the database finds matching rows: which product `findFirst` yields is any function of the set of matching ones.
- Catalogue changes in the middle of a run of shop calls: variants keep their unit and minimum quantity.
- Sorting in `computeCombinationKey` is by character; the code sorts by UTF-16 code unit, which orders characters outside the Basic Multilingual Plane differently. Any total order gives the proofs.
- Product selling unit, brand, information values and variant attribute rows an import writes: copies of fields; the retail price list is assumed to exist.
- Attribute keys that name members every JavaScript object inherits.
- Import batches read by `findOne` and `findAll`, the counters of a batch, and the archived file.
- Query filters of the listing calls and a cursor whose row has been deleted: paging works on the ordered ids of one filter.
- `drawDigit` and the layout of placeholder pictures: calls of `fillRect`.
- Brands, media, users, attribute administration, reports, pricing, shipments: easy members.
- Adjustments, deductions and returns as steps of the interleaving in `ReservationRace`: they are check-then-write or unguarded, and nothing is promised for them.
