# servio order fulfilment, modelled in Dafny

servio runs a restaurant. Waiters send orders from their screen. The server checks every dish against the menu and every ingredient against the stock, saves the order, lowers the stock and writes one usage log per ingredient used. It then announces the order:

- the kitchen and the bar each receive the lines for their own station, without prices;
- the cashier receives the whole order with prices;
- the admin room receives the inventory items that changed.

Each line's station comes from the category it belongs to. An explicit category → station map from the settings decides first; failing that, a list of drink keywords sends the line to the bar, and everything else goes to the kitchen. The stations list the open lines and tick them off one at a time. The cashier toggles an order between confirmed and paid. Administrators maintain the categories, halls, users and inventory.

The project models that engine and the browser screens' own list logic:

- **Store (`store.dfy`).** The server's collections live in a `Db` object: orders, menu, inventory, users, usage logs, the settings document, and an outbox of real-time messages. Every route handler is a method on a `Db` that changes those fields. Each handler is proved to leave exactly the state and the answer that a function of the old state gives. That function is the route's specification, and the lemmas state what the source promises about it. The specifications of order creation and of the station feed route lines with the corrected category lookup, which differs from the source for two category keys (see "## Left out" and "## Findings").
- **Schemas (`order_model.dfy`, `menu_model.dfy`, `inventory_model.dfy`, `user_model.dfy`, `settings_model.dfy`).** The data schemas are datatypes with validity predicates and default-filling constructors. `ValidWorld` (in `store.dfy`) collects the invariants, and every route is proved to preserve it.
- **Routes (`waiter_routes.dfy`, `kitchen_routes.dfy`, `cashier_routes.dfy`, `admin_routes.dfy`).** Order creation, the station feed and line ticking, the payment toggle, and the admin maintenance routes.
- **Station routing and rooms (`routing.dfy`, `realtime.dfy`).** The category → station rule, and which room each role's socket joins.
- **Screens (`settings_page.dfy`, `waiter_dashboard.dfy`, `kitchen_dashboard.dfy`, `cashier_dashboard.dfy`, `inventory_management.dfy`, `menu_management.dfy`).** The browser screens' pure list logic: the table-range parser and formatter, the cart, the live-feed reducers, the ingredient picker and the stock badges.
- **Shared text and list helpers (`common.dfy`).** JavaScript's `trim` (with ECMAScript's whitespace and line-terminator characters), `toLowerCase` on ASCII letters, `split`, `join`, `parseInt` on digit strings, and `filter`.

Units:

- ingredient quantities and stock are fixed-point integers scaled by 10 000 (`Scale`), so the server's rounding to four decimals is exact;
- prices are integer cents;
- time is an integer the caller supplies;
- database identifiers are naturals. An order's identifier is its position in the order list, which makes "newest first" the reverse of storage order.

## Model

| member | source | states |
|---|---|---|
| Store.Status | backend/src/routes/waiter.ts:32-35 | the status code of an error: 400 exactly for a bad request, an unknown or inactive menu item, or a stock shortage; 500 exactly for a server error |
| Store.EmptyWorldValid | backend/src/models/Order.ts:56-87 | the empty store satisfies every schema invariant |
| Store.ValidWithSettings | backend/src/models/Settings.ts:56-89 | replacing the settings by a document that satisfies its schema keeps the store valid |
| Store.ValidWithMenu | backend/src/models/MenuItem.ts:29-57 | replacing the menu by schema-valid items keeps the store valid |
| Store.ValidWithUsers | backend/src/models/User.ts:14-36 | replacing the users by schema-valid accounts with unique usernames and fresh ids keeps the store valid |
| Store.ValidWithInventory | backend/src/models/Inventory.ts:10-31 | replacing the inventory by schema-valid items with fresh ids keeps the store valid |
| Store.Db.constructor | backend/src/models/Order.ts:56-87 | a new store holds nothing and is valid |
| OrderModel.NewOrderItem | backend/src/models/Order.ts:23-54 | a new order line copies its fields and starts unprepared (`prepared` defaults to false) |
| OrderModel.NewOrder | backend/src/models/Order.ts:56-87 | a new order copies its fields, starts confirmed and has no payment time |
| OrderModel.LinesTotalNonNegative | backend/src/models/Order.ts:34-43 | lines with quantity ≥ 1 and price ≥ 0 have a total ≥ 0 |
| OrderModel.NewOrderValid | backend/src/models/Order.ts:56-76 | a new order priced at its lines' total is valid exactly when it has a table, at least one line, and every line is valid |
| MenuModel.NewMenuItem | backend/src/models/MenuItem.ts:29-57 | the name is trimmed; category defaults to "Uncategorized", isActive to true, ingredients to the empty list |
| MenuModel.ValidIngredientPositive | backend/src/models/MenuItem.ts:23-27 | an ingredient quantity allowed by the 0.01 minimum is strictly positive |
| MenuModel.NewMenuItemValid | backend/src/models/MenuItem.ts:34-55 | a non-blank name and a non-negative price give a valid menu item |
| InventoryModel.NewInventoryItem | backend/src/models/Inventory.ts:10-31 | the name is trimmed; stock defaults to 0, unit to "portions", lastUpdated to the creation time |
| InventoryModel.NewInventoryItemValid | backend/src/models/Inventory.ts:12-22 | a non-blank name gives a valid item with the default stock |
| UserModel.NewUser | backend/src/models/User.ts:14-36 | the username is trimmed and a new account is active |
| UserModel.Admins | backend/src/routes/admin.ts:100-106 | the administrators are exactly the accounts whose role is admin |
| UserModel.NewUserValid | backend/src/models/User.ts:16-26 | a new account is valid exactly when its username is not blank and its password has at least 6 characters |
| SettingsModel.NewCategory | backend/src/models/Settings.ts:19-32 | the category name is trimmed and the role defaults to kitchen |
| SettingsModel.NewHall | backend/src/models/Settings.ts:36-52 | the hall name is trimmed; tables default to none and the type to hall |
| SettingsModel.DefaultSettingsContent | backend/src/models/Settings.ts:58-87 | the default document: the 13 listed categories with their stations, in order, from "Fast Food" (kitchen) to "Siqaretlər" (bar); table count 20; one "Main Hall" of type hall with tables 1..20 |
| SettingsModel.DefaultSettingsValid | backend/src/models/Settings.ts:19-89 | the default document satisfies the schema: trimmed non-empty names, table count ≥ 1 |
| Realtime.RoomJoinRule | backend/src/socket.ts:45-54 | no role joins the waiter room; the waiter is the only role that joins no room |
| Realtime.WaiterRoomUnreachable | backend/src/socket.ts:45-54 | no connected user receives a message sent to the waiter room |
| Routing.BuildCategoryRoles | backend/src/routes/waiter.ts:139-147 | the loop builds the map from each named category's trimmed, lower-cased name to its station |
| Routing.SettingsRoles | backend/src/routes/kitchen.ts:18-26 | without a settings document the map is empty; otherwise it is built from its categories |
| Routing.CategoryRoleMapLastWins | backend/src/routes/waiter.ts:142-146 | a key is in the map exactly when some named category normalises to it, and it maps to the station of the last such category |
| Routing.LastNamed | backend/src/routes/waiter.ts:142-146 | finds the last category that normalises to a key, or -1 when there is none |
| Routing.MappingWins | backend/src/routes/waiter.ts:150-153 | an explicit mapping for the normalised category decides the station |
| Routing.FallbackRule | backend/src/routes/waiter.ts:153-158 | without a mapping a line goes to the bar exactly when its normalised category contains one of the ten drink keywords, and to the kitchen otherwise |
| Routing.RoleKeyNormalises | backend/src/routes/waiter.ts:151 | the lookup key ignores a leading space and the case of ASCII letters |
| Routing.ToLowerTrim | backend/src/routes/waiter.ts:151 | trimming and lower-casing commute |
| Routing.AsWrittenDiffersOnlyOnInheritedKey | backend/src/routes/waiter.ts:139-161 | the as-written lookup returns no station exactly for the key "__proto__" (mapped in the settings or not) and the unmapped key "constructor"; for every other category it agrees with the corrected rule |
| Routing.ConstructorCategoryUnrouted | backend/src/routes/waiter.ts:150-161 | with no mapping, the category "constructor" gets no station as written, and the kitchen under the corrected rule |
| Routing.LineDepartments | backend/src/routes/waiter.ts:164-165 | each line's station is the rule applied to its category |
| Routing.PickPartition | backend/src/routes/waiter.ts:164-165 | the kitchen lines and the bar lines together number all of the order's lines |
| Routing.StationLinesExact | backend/src/routes/waiter.ts:164-165 | a station's lines are exactly the order's lines the rule sends there, each carrying its own index, in increasing order; the kitchen and bar lists together cover every line once |
| Routing.ConstructorLineLost | backend/src/routes/waiter.ts:150-165 | as written, a line in the unmapped category "constructor" is on neither the kitchen list nor the bar list; the corrected split puts it on the kitchen list |
| Routing.UnroutedSingleLine | backend/src/routes/waiter.ts:164-165 | a line the as-written lookup gives no station is on no station's list |
| Routing.ConstructorLineToKitchen | backend/src/routes/waiter.ts:150-165 | under the corrected rule, the "constructor" line reaches the kitchen |
| Routing.ProtoKeyIsKey | backend/src/routes/waiter.ts:151 | "__proto__" is its own normalised key |
| Routing.ProtoCategoryUnrouted | backend/src/routes/waiter.ts:139-161 | as written, the category "__proto__" gets no station even when the settings map it, because the map entry is never stored; under the corrected rule it gets its mapped station, or the kitchen |
| Routing.ProtoLineLost | backend/src/routes/waiter.ts:139-165 | as written, a line in the category "__proto__" is on neither the kitchen list nor the bar list, mapped or not; the corrected split puts it on its station's list |
| Routing.ProtoLineRouted | backend/src/routes/waiter.ts:139-165 | under the corrected rule, the "__proto__" line reaches its mapped station, or the kitchen when unmapped |
| WaiterRoutes.RejectsEmptyRequest | backend/src/routes/waiter.ts:32-35 | a missing table or an empty item list gives 400 with the required-fields message, and nothing changes |
| WaiterRoutes.RejectsUnavailableItem | backend/src/routes/waiter.ts:44-50 | a line naming a missing or inactive menu item fails the request, and nothing changes |
| WaiterRoutes.LineUses | backend/src/routes/waiter.ts:53-56 | one use per ingredient of a dish: its inventory item and ingredient qty × line quantity |
| WaiterRoutes.AggregateSums | backend/src/routes/waiter.ts:42-63 | the demand map has a key for exactly the inventory items used, and each key holds the sum of that item's uses over all lines and ingredients |
| WaiterRoutes.SumForNonNegative | backend/src/routes/waiter.ts:53-63 | non-negative uses add up to a non-negative demand |
| WaiterRoutes.ResolveFailureSticks | backend/src/routes/waiter.ts:44-50 | once a line fails, the whole request fails with that line's error |
| WaiterRoutes.ResolveSnapshots | backend/src/routes/waiter.ts:44-75 | a resolved request has one order line per request line, each snapshotting the dish's name, price and category with the requested quantity; the total is the sum of price × quantity |
| WaiterRoutes.ResolveRejectsUnavailable | backend/src/routes/waiter.ts:45-50 | any unavailable line makes the resolution fail |
| WaiterRoutes.ResolveNoDangling | backend/src/routes/waiter.ts:53-55 | a resolved request uses only inventory items that exist (a dangling ingredient fails the request) |
| WaiterRoutes.ResolveLines | backend/src/routes/waiter.ts:44-75 | the resolution loop gives the specification's result and, on success, the aggregated demand of every line |
| WaiterRoutes.ResolveOne | backend/src/routes/waiter.ts:45-75 | one pass of the resolution loop: either the whole request fails with this line's error, or the prefix up to this line resolves to the extended items and total and the demand covers it |
| WaiterRoutes.ResolveStops | backend/src/routes/waiter.ts:47-50 | a missing or inactive dish after a resolvable prefix fails the whole request with menu-item-not-found; a dangling ingredient fails it with a server error |
| WaiterRoutes.ResolveAdvances | backend/src/routes/waiter.ts:65-75 | an available line after a resolvable prefix adds its snapshot and price × quantity, and its ingredient uses to the request's uses |
| WaiterRoutes.AddIngredients | backend/src/routes/waiter.ts:53-63 | the ingredient loop fails exactly on a dangling ingredient, and otherwise adds the dish's uses to the demand |
| WaiterRoutes.AddIngredient | backend/src/routes/waiter.ts:54-62 | one ingredient: it fails exactly when the ingredient's inventory item is gone, and otherwise its use joins the demand |
| WaiterRoutes.AggregateSnoc | backend/src/routes/waiter.ts:56-62 | the demand of one more use is the old demand with that use added (summed into an existing key, or a new key at the end) |
| WaiterRoutes.AddUseWellFormed | backend/src/routes/waiter.ts:58-62 | adding a use keeps one key per inventory item and every key in the map |
| WaiterRoutes.FirstShortageNone | backend/src/routes/waiter.ts:78-86 | the stock check passes exactly when every demanded item exists and has at least the demanded stock |
| WaiterRoutes.FirstShortageKind | backend/src/routes/waiter.ts:80-84 | a failed stock check reports insufficient stock |
| WaiterRoutes.ShortageExactly | backend/src/routes/waiter.ts:78-86 | the check passes exactly when every used item exists and its total demand is at most its stock (equality passes) |
| WaiterRoutes.CheckStock | backend/src/routes/waiter.ts:78-86 | the checking loop finds the specification's first shortage |
| WaiterRoutes.StockCheck | backend/src/routes/waiter.ts:78-86 | for a resolvable request, it fails with insufficient stock exactly when some used item has less stock than its total demand |
| WaiterRoutes.AdmitSuccess | backend/src/routes/waiter.ts:32-96 | an admitted request resolved, passed the stock check, and yields the new order and the request's uses |
| WaiterRoutes.AdmittedOrder | backend/src/routes/waiter.ts:65-96 | the saved order gets the next id, is confirmed and unpaid, names the table, the waiter and the time, snapshots every line unprepared, is priced at its lines' total, and is valid |
| WaiterRoutes.AdmittedStock | backend/src/routes/waiter.ts:78-86 | after admission every used item exists and its total demand fits its stock |
| WaiterRoutes.DeductStock | backend/src/routes/waiter.ts:99-116 | deduction keeps the set of items and their names and units, and lowers each item's stock by its total demand; one log and one update per use |
| WaiterRoutes.DeductLogs | backend/src/routes/waiter.ts:119-127 | the k-th log records the k-th use, with the stock before and after, the order and the table |
| WaiterRoutes.DeductNonNegative | backend/src/routes/waiter.ts:110-127 | when demand fits stock, no log records a negative stock after |
| WaiterRoutes.UsesPositive | backend/src/models/MenuItem.ts:23-27 | with valid dishes and quantities ≥ 1, every use is positive |
| WaiterRoutes.AdmittedUsesPositive | backend/src/routes/waiter.ts:99-116 | every use of an admitted order is positive when every menu item is valid |
| WaiterRoutes.ApplyWrites | backend/src/routes/waiter.ts:89-129 | a successful order's new store is the admitted plan applied: the order appended under the next id with the table and time, stock deducted by the request's uses, their logs appended; menu, settings, users and the id counter are unchanged |
| WaiterRoutes.AdmittedValid | backend/src/models/Order.ts:56-87 | the admitted order takes the next id and passes the order validators |
| WaiterRoutes.AdmittedFits | backend/src/routes/waiter.ts:78-116 | with valid dishes, an admitted order's uses name existing items with positive amounts whose totals fit the stock |
| WaiterRoutes.StockConservation | backend/src/routes/waiter.ts:99-116 | after a successful order each item's stock is its old stock minus its total demand; no item is added or removed |
| WaiterRoutes.LogsWritten | backend/src/routes/waiter.ts:99-129 | applying a plan whose uses fit the stock appends one log per use, in order, each the log of that use for the order, its table and time, with stock after ≥ 0 |
| WaiterRoutes.AppendedLogs | backend/src/routes/waiter.ts:119-127 | the logs appended by a deduction that fits are, position by position, the logs of the uses, none with negative stock after |
| WaiterRoutes.InventoryStaysValid | backend/src/models/Inventory.ts:17-22 | stock stays ≥ 0 after a successful order |
| WaiterRoutes.OrdersStayValid | backend/src/models/Order.ts:56-87 | after a successful order every stored order is valid and sits at its own id |
| WaiterRoutes.CreateOrderKeepsValid | backend/src/routes/waiter.ts:28-226 | order creation keeps every store invariant, whether it succeeds or not |
| WaiterRoutes.PricedLines | backend/src/routes/waiter.ts:206-210 | the cashier's lines: name, quantity and price of each order line |
| WaiterRoutes.ReceiptLines | backend/src/routes/waiter.ts:216-221 | the waiter's response lines: name and quantity only, no price |
| WaiterRoutes.Announced | backend/src/routes/waiter.ts:132-213 | a successful order appends exactly its announcements to the outbox, built from the updated stock and the kitchen and bar splits |
| WaiterRoutes.AnnouncementsShape | backend/src/routes/waiter.ts:132-213 | the admin room is sent the updated items when any changed; the kitchen and the bar are sent their price-free tickets only when they have lines; the cashier is always sent every line with its price and the total, last |
| WaiterRoutes.DeductAll | backend/src/routes/waiter.ts:99-129 | the deduction loop leaves the inventory and the logs of the specification's deduction and changes nothing else |
| WaiterRoutes.DeductLine | backend/src/routes/waiter.ts:106-128 | the inner loop applies one dish's uses in order |
| WaiterRoutes.ApplyUse | backend/src/routes/waiter.ts:108-127 | one use: the rounded stock update, the updated-ids entry and the log |
| WaiterRoutes.Emit | backend/src/routes/waiter.ts:132-213 | appends the announcements to the outbox and changes nothing else |
| WaiterRoutes.Accept | backend/src/routes/waiter.ts:89-213 | saving, deducting and announcing together give the specification's new state |
| WaiterRoutes.PostOrder | backend/src/routes/waiter.ts:28-226 | the handler ends in exactly the state and response of the order-creation specification |
| KitchenRoutes.Tickets | backend/src/routes/kitchen.ts:33-64 | one ticket per order, projected for the station |
| KitchenRoutes.SelectSound | backend/src/routes/kitchen.ts:65 | every ticket in the feed has a line still to prepare |
| KitchenRoutes.SelectComplete | backend/src/routes/kitchen.ts:65 | every ticket with a line still to prepare is in the feed |
| KitchenRoutes.SelectNewestFirst | backend/src/routes/kitchen.ts:28-30 | the feed lists orders newest first |
| KitchenRoutes.FeedExact | backend/src/routes/kitchen.ts:13-71 | each ticket is the station's projection of a stored order: only that station's lines, each with its index in the full order, no price; every ticket has a line to prepare; newest first |
| KitchenRoutes.FeedComplete | backend/src/routes/kitchen.ts:28-65 | every confirmed order with an unprepared line for the station is in the feed |
| KitchenRoutes.GetStationOrders | backend/src/routes/kitchen.ts:13-71 | the handler returns the specification's feed |
| KitchenRoutes.Prepared | backend/src/routes/kitchen.ts:90-92 | marking sets only the chosen line's prepared flag |
| KitchenRoutes.MarkPreparedErrors | backend/src/routes/kitchen.ts:74-105 | the request fails exactly for an unknown order, an index that does not parse, or an index out of range; 500 exactly for an unparsable index on a known order; nothing changes on failure |
| KitchenRoutes.MarkPreparedEffect | backend/src/routes/kitchen.ts:90-101 | success sets that line's prepared flag and changes nothing else in the line, the order, the other orders, the settings or the id counter; it appends one item-prepared message to the kitchen, bar and cashier rooms |
| KitchenRoutes.MarkPreparedIdempotent | backend/src/routes/kitchen.ts:90-92 | marking twice leaves the orders as marking once, paid orders included |
| KitchenRoutes.MarkPreparedKeepsValid | backend/src/routes/kitchen.ts:74-105 | marking keeps every store invariant |
| KitchenRoutes.MarkItemPrepared | backend/src/routes/kitchen.ts:74-105 | the handler ends in exactly the state and answer of the specification |
| CashierRoutes.Newest | backend/src/routes/cashier.ts:14-16 | the listing is the stored orders in reverse storage order |
| CashierRoutes.NewestOrdered | backend/src/routes/cashier.ts:12-22 | the listing holds every order, whatever its status, with ids strictly decreasing |
| CashierRoutes.ListOrders | backend/src/routes/cashier.ts:12-22 | the handler returns the specification's listing |
| CashierRoutes.ConfirmedAt | backend/src/routes/cashier.ts:51-55 | the count of confirmed orders at a table is zero exactly when none is confirmed there |
| CashierRoutes.Toggled | backend/src/routes/cashier.ts:33-40 | paid becomes confirmed with no payment time; confirmed becomes paid at the given time; nothing else changes |
| CashierRoutes.TogglePayMissing | backend/src/routes/cashier.ts:27-31 | the toggle fails exactly for an unknown order, with 404 and no change |
| CashierRoutes.TogglePayEffect | backend/src/routes/cashier.ts:25-72 | only that order's status and payment time change: paid becomes confirmed with no payment time, anything else becomes paid at the given time; settings and the id counter stay; the outbox keeps its old messages and gains an order-updated message, then a table-freed message to the waiters exactly when the order became paid and no order at its table is still confirmed |
| CashierRoutes.TogglePayTwice | backend/src/routes/cashier.ts:33-40 | toggling twice restores the status and whether a payment time is set; a confirmed order comes back exactly |
| CashierRoutes.TogglePayKeepsValid | backend/src/routes/cashier.ts:25-72 | toggling keeps every store invariant |
| CashierRoutes.TableFreedUnheard | backend/src/routes/cashier.ts:57 | no connected role receives a table-freed message, since it goes to the waiter room |
| CashierRoutes.PayOrder | backend/src/routes/cashier.ts:25-72 | the handler ends in exactly the state and answer of the specification |
| AdminRoutes.IndexOf | backend/src/routes/admin.ts:393-397 | the first position holding the name, or -1 when it is absent |
| AdminRoutes.AppendKeepsDistinct | backend/src/routes/admin.ts:368-372 | appending a new name keeps names distinct |
| AdminRoutes.SettingsOrDefaultValid | backend/src/routes/admin.ts:366-367 | the settings, or the defaults when there is no document, satisfy the schema |
| AdminRoutes.CategoryAddRules | backend/src/routes/admin.ts:359-378 | 400 exactly for a blank name, 409 for a trimmed duplicate, no change on failure; otherwise the trimmed category, with the given role or kitchen, is appended and the rest kept |
| AdminRoutes.CategoryAddKeepsDistinct | backend/src/routes/admin.ts:368-372 | adding keeps category names distinct |
| AdminRoutes.DeleteUndoesAddCategory | backend/src/routes/admin.ts:429 | removing a just-appended new name gives back the list |
| AdminRoutes.CategoryAddThenDelete | backend/src/routes/admin.ts:359-435 | adding a category then deleting its trimmed name restores the category list |
| AdminRoutes.CategoryEditRules | backend/src/routes/admin.ts:381-414 | 400 for a missing old name or a blank new name, 404 for no document or an unknown old name, no change on failure; otherwise the first entry with that name is replaced in place by the trimmed new name with the given or previous role, and apart from that entry and the menu cascade the document and the store stay as they were |
| AdminRoutes.CategoryEditCascade | backend/src/routes/admin.ts:403-408 | every menu item in the old category moves to the trimmed new name; no other menu item changes |
| AdminRoutes.CategoryDeleteRules | backend/src/routes/admin.ts:417-435 | failure exactly without a name (400) or without a document (404); otherwise exactly the categories with another name stay, each as often as before and in their original order, and nothing else changes |
| AdminRoutes.EditedHall | backend/src/routes/admin.ts:478-480 | only the given fields change; a blank new name keeps the old name |
| AdminRoutes.HallAddRules | backend/src/routes/admin.ts:438-458 | 400 exactly for a blank name, 409 for a trimmed duplicate; otherwise the hall is appended with tables defaulting to none and type to hall, and the rest of the document (categories, table count) and of the store stays |
| AdminRoutes.HallAddKeepsDistinct | backend/src/routes/admin.ts:447-451 | adding keeps hall names distinct |
| AdminRoutes.DeleteUndoesAddHall | backend/src/routes/admin.ts:502 | removing a just-appended new hall gives back the list |
| AdminRoutes.HallAddThenDelete | backend/src/routes/admin.ts:438-509 | adding a hall then deleting its trimmed name restores the hall list |
| AdminRoutes.HallEditRules | backend/src/routes/admin.ts:461-487 | failure exactly for a missing name (400), no document or an unknown hall (404); otherwise the first hall with the name gets only the given fields, and the other halls, the rest of the document and the store stay |
| AdminRoutes.HallDeleteRules | backend/src/routes/admin.ts:490-509 | failure exactly without a name (400) or without a document (404); otherwise exactly the halls with another name stay, each as often as before and in their original order, and nothing else changes |
| AdminRoutes.CategoryAddKeepsValid | backend/src/routes/admin.ts:359-378 | adding a category keeps every store invariant |
| AdminRoutes.RecategorisedValid | backend/src/routes/admin.ts:403-408 | the rename cascade keeps menu items valid |
| AdminRoutes.CategoryEditKeepsValid | backend/src/routes/admin.ts:381-414 | editing a category keeps every store invariant |
| AdminRoutes.ReplacedCategoryValid | backend/src/routes/admin.ts:398 | replacing a category by a valid one keeps the settings valid |
| AdminRoutes.CategoryDeleteKeepsValid | backend/src/routes/admin.ts:417-435 | deleting a category keeps every store invariant |
| AdminRoutes.HallAddKeepsValid | backend/src/routes/admin.ts:438-458 | adding a hall keeps every store invariant |
| AdminRoutes.HallEditKeepsValid | backend/src/routes/admin.ts:461-487 | editing a hall keeps every store invariant |
| AdminRoutes.HallDeleteKeepsValid | backend/src/routes/admin.ts:490-509 | deleting a hall keeps every store invariant |
| AdminRoutes.PostCategory | backend/src/routes/admin.ts:359-378 | the handler ends in exactly the specification's state and answer |
| AdminRoutes.PutCategory | backend/src/routes/admin.ts:381-414 | the handler ends in exactly the specification's state and answer |
| AdminRoutes.DeleteCategory | backend/src/routes/admin.ts:417-435 | the handler ends in exactly the specification's state and answer |
| AdminRoutes.PostHall | backend/src/routes/admin.ts:438-458 | the handler ends in exactly the specification's state and answer |
| AdminRoutes.PutHall | backend/src/routes/admin.ts:461-487 | the handler ends in exactly the specification's state and answer |
| AdminRoutes.DeleteHall | backend/src/routes/admin.ts:490-509 | the handler ends in exactly the specification's state and answer |
| AdminRoutes.UpdatedUser | backend/src/routes/admin.ts:73-76 | only the fields given change; a given username is trimmed |
| AdminRoutes.UserCreateRules | backend/src/routes/admin.ts:28-55 | fails exactly on a missing field (400), a taken trimmed username (409), or otherwise a blank username or a short password (500); otherwise adds one active account under the next fresh id, advances the id counter, and changes nothing else |
| AdminRoutes.UserUpdateRules | backend/src/routes/admin.ts:58-88 | 404 exactly for an unknown account, 400 exactly when the requester deactivates themself, 500 exactly when the changed account fails the validators or takes a username another account holds; otherwise only the given fields of that account change and nothing else in the store |
| AdminRoutes.RequesterStaysActive | backend/src/routes/admin.ts:68-71 | an update never deactivates the requester's own account |
| AdminRoutes.UserDeleteRules | backend/src/routes/admin.ts:91-113 | fails exactly for an unknown account (404) or the last admin (400); otherwise removes that account only |
| AdminRoutes.AdminSurvivesDelete | backend/src/routes/admin.ts:100-106 | deleting never leaves the store without an admin when it had one |
| AdminRoutes.LastAdminDemotable | backend/src/routes/admin.ts:58-88 | an update that changes the only admin's role succeeds and leaves no admin: the last-admin guard covers delete only |
| AdminRoutes.UserCreateKeepsValid | backend/src/routes/admin.ts:28-55 | creating a user keeps every store invariant |
| AdminRoutes.UserUpdateKeepsValid | backend/src/routes/admin.ts:58-88 | updating a user keeps every store invariant |
| AdminRoutes.UserDeleteKeepsValid | backend/src/routes/admin.ts:91-113 | deleting a user keeps every store invariant |
| AdminRoutes.PostUser | backend/src/routes/admin.ts:28-55 | the handler ends in exactly the specification's state and answer |
| AdminRoutes.PutUser | backend/src/routes/admin.ts:58-88 | the handler ends in exactly the specification's state and answer |
| AdminRoutes.DeleteUser | backend/src/routes/admin.ts:91-113 | the handler ends in exactly the specification's state and answer |
| AdminRoutes.InventoryCreateRules | backend/src/routes/admin.ts:207-227 | 400 exactly for a blank name, 500 for a negative stock; otherwise a valid item with the trimmed name, stock or 0 and unit or "portions" is added under the next fresh id, the id counter advances, and nothing else changes |
| AdminRoutes.InventoryDeleteRules | backend/src/routes/admin.ts:256-274 | 404 exactly for an unknown item; otherwise it is removed, and each menu item's ingredients become exactly those referring elsewhere, in their original order; orders, users, settings, logs, outbox and id counter stay |
| AdminRoutes.InventoryCreateKeepsValid | backend/src/routes/admin.ts:207-227 | creating an inventory item keeps every store invariant |
| AdminRoutes.InventoryDeleteKeepsValid | backend/src/routes/admin.ts:256-274 | deleting an inventory item keeps every store invariant |
| AdminRoutes.PostInventoryItem | backend/src/routes/admin.ts:207-227 | the handler ends in exactly the specification's state and answer |
| AdminRoutes.DeleteInventoryItem | backend/src/routes/admin.ts:256-274 | the handler ends in exactly the specification's state and answer |
| SettingsPage.SortedDistinct | frontend/src/pages/admin/Settings.tsx:78 | `Array.from(new Set(..)).sort`: strictly increasing and holding exactly the input's values |
| SettingsPage.InsertDistinct | frontend/src/pages/admin/Settings.tsx:78 | inserting into a strictly increasing list keeps it strictly increasing and adds just that value |
| SettingsPage.IncreasingUnique | frontend/src/pages/admin/Settings.tsx:78 | two strictly increasing lists with the same values are equal |
| SettingsPage.Sort | frontend/src/pages/admin/Settings.tsx:84 | the formatter's sort: ascending and a permutation of its input |
| SettingsPage.SortOfIncreasing | frontend/src/pages/admin/Settings.tsx:84 | sorting a strictly increasing list changes nothing |
| SettingsPage.Range | frontend/src/pages/admin/Settings.tsx:72-73 | the consecutive integers from lo up to but excluding hi |
| SettingsPage.RangeElements | frontend/src/pages/admin/Settings.tsx:72-73 | y is in the range exactly when lo ≤ y < hi |
| SettingsPage.ParseEach | frontend/src/pages/admin/Settings.tsx:71 | each piece parsed after trimming |
| SettingsPage.Parsed | frontend/src/pages/admin/Settings.tsx:66-79 | the parser's result is strictly increasing and holds exactly the tables some comma-separated part contributes |
| SettingsPage.CollectElements | frontend/src/pages/admin/Settings.tsx:67-77 | a table is collected exactly when some part contributes it |
| SettingsPage.RangePart | frontend/src/pages/admin/Settings.tsx:71-73 | a part "a-b" contributes exactly a..b inclusive, and nothing when a > b |
| SettingsPage.PartSingle | frontend/src/pages/admin/Settings.tsx:74-75 | a single numeric part contributes just that number |
| SettingsPage.PushRange | frontend/src/pages/admin/Settings.tsx:72-73 | the range loop appends lo..hi inclusive |
| SettingsPage.PushPart | frontend/src/pages/admin/Settings.tsx:69-76 | one part's loop body appends exactly what the part contributes |
| SettingsPage.ParseTableRange | frontend/src/pages/admin/Settings.tsx:66-79 | the loop-based parser returns the specification's result |
| SettingsPage.Formatted | frontend/src/pages/admin/Settings.tsx:82-97 | the empty list formats as "" |
| SettingsPage.RunTexts | frontend/src/pages/admin/Settings.tsx:89-95 | "s-e" for each run, "s" for a singleton |
| SettingsPage.RunsOfIncreasing | frontend/src/pages/admin/Settings.tsx:84-95 | the runs are maximal (a gap of at least one between runs) and cover exactly the input's values |
| SettingsPage.RunsOfSorted | frontend/src/pages/admin/Settings.tsx:84-95 | the runs of a sorted non-negative list are non-empty, well ordered, and cover exactly its values |
| SettingsPage.FormatTableRange | frontend/src/pages/admin/Settings.tsx:82-97 | the loop-based formatter returns the specification's text |
| SettingsPage.SplitJoin | frontend/src/pages/admin/Settings.tsx:68-96 | splitting the ", "-joined texts at commas gives each text back, with a leading space after the first |
| SettingsPage.RunTextPieces | frontend/src/pages/admin/Settings.tsx:71-95 | a run's text parses back into its bounds |
| SettingsPage.ParseRuns | frontend/src/pages/admin/Settings.tsx:66-96 | parsing the formatted runs recovers exactly the tables the runs cover |
| SettingsPage.FormattedElements | frontend/src/pages/admin/Settings.tsx:66-97 | the formatted text of non-negative tables parses back to exactly those tables |
| SettingsPage.RoundTrip | frontend/src/pages/admin/Settings.tsx:65-97 | for non-negative tables, parsing the formatted text gives the sorted distinct tables |
| SettingsPage.EditKeepsTables | frontend/src/pages/admin/Settings.tsx:192-196 | opening a hall for editing and saving it unchanged keeps its table list |
| SettingsPage.HallTables | frontend/src/pages/admin/Settings.tsx:173-196 | a cabinet keeps exactly one table, the smallest parsed, when any parsed and none otherwise; a hall keeps them all |
| SettingsPage.Normalised | frontend/src/pages/admin/Settings.tsx:53-55 | a legacy string category becomes that name with the kitchen role; object entries pass through |
| SettingsPage.NormalisedNames | frontend/src/pages/admin/Settings.tsx:53-55 | normalising keeps the names, gives legacy entries the kitchen role, and is idempotent |
| WaiterDashboard.Find | frontend/src/pages/waiter/WaiterDashboard.tsx:70 | finds an entry for the item exactly when the cart has one |
| WaiterDashboard.Bumped | frontend/src/pages/waiter/WaiterDashboard.tsx:72-86 | only entries for the item change quantity |
| WaiterDashboard.AddToCartRules | frontend/src/pages/waiter/WaiterDashboard.tsx:68-78 | an item in the cart gains one unit and nothing else changes; a new item is appended with one unit |
| WaiterDashboard.AddToCartQty | frontend/src/pages/waiter/WaiterDashboard.tsx:68-94 | adding raises the item's shown quantity by one and leaves the others |
| WaiterDashboard.RemoveFromCartRules | frontend/src/pages/waiter/WaiterDashboard.tsx:80-90 | removing an absent item changes nothing; above one unit the entry loses one; at one unit exactly the other entries stay, in their original order |
| WaiterDashboard.RemoveFromCartQty | frontend/src/pages/waiter/WaiterDashboard.tsx:80-94 | removing lowers the item's shown quantity by one, down to 0, and leaves the others |
| WaiterDashboard.AddThenRemove | frontend/src/pages/waiter/WaiterDashboard.tsx:68-90 | adding an item then removing it gives back the cart |
| WaiterDashboard.AddKeepsValid | frontend/src/pages/waiter/WaiterDashboard.tsx:68-78 | adding keeps one entry per item, each with at least one unit |
| WaiterDashboard.RemoveKeepsValid | frontend/src/pages/waiter/WaiterDashboard.tsx:80-90 | removing keeps one entry per item, each with at least one unit |
| WaiterDashboard.TotalItemsRules | frontend/src/pages/waiter/WaiterDashboard.tsx:68-90 | adding raises the unit total by one; removing an item in the cart lowers it by one |
| WaiterDashboard.Lines | frontend/src/pages/waiter/WaiterDashboard.tsx:110 | one request line per cart entry, with its id and quantity |
| WaiterDashboard.SubmissionRules | frontend/src/pages/waiter/WaiterDashboard.tsx:96-111 | no request for an empty cart or without a table (the cart is checked first); otherwise the request names the table and carries every entry in order, with all its units |
| WaiterDashboard.AfterSubmitRules | frontend/src/pages/waiter/WaiterDashboard.tsx:112-119 | an accepted order clears the cart and the table; otherwise the screen is unchanged |
| WaiterDashboard.SortedDistinctNames | frontend/src/pages/waiter/WaiterDashboard.tsx:62 | the distinct names, strictly increasing |
| WaiterDashboard.CategoriesRules | frontend/src/pages/waiter/WaiterDashboard.tsx:62 | the tabs are "All" followed by the menu's categories, sorted, each once, and exactly those |
| WaiterDashboard.FilteredItemsRules | frontend/src/pages/waiter/WaiterDashboard.tsx:64-66 | "All" shows the whole menu; another tab shows exactly that category's items, in menu order |
| KitchenDashboard.NewOrder | frontend/src/pages/kitchen/KitchenDashboard.tsx:31-34 | a new order goes on top and the rest are unchanged |
| KitchenDashboard.MarkLines | frontend/src/pages/kitchen/KitchenDashboard.tsx:41 | only the prepared flag of lines with the index changes, and it becomes set |
| KitchenDashboard.ItemPreparedRules | frontend/src/pages/kitchen/KitchenDashboard.tsx:36-46 | after the event every order shown has a line to prepare; an order stays exactly when, with the line ticked, it still has one, and the orders kept stay in their order |
| KitchenDashboard.ItemPreparedOthers | frontend/src/pages/kitchen/KitchenDashboard.tsx:36-46 | other orders stay exactly when they have a line to prepare |
| KitchenDashboard.ItemPreparedTwice | frontend/src/pages/kitchen/KitchenDashboard.tsx:36-46 | the same event twice leaves the screen as once |
| KitchenDashboard.WithStatus | frontend/src/pages/kitchen/KitchenDashboard.tsx:50 | only orders with the id get the new status |
| KitchenDashboard.OrderUpdatedRules | frontend/src/pages/kitchen/KitchenDashboard.tsx:48-53 | after the event every order shown is confirmed; the updated order stays exactly when its new status is confirmed; the orders kept stay in their order |
| KitchenDashboard.OrderUpdatedConfirmedKeeps | frontend/src/pages/kitchen/KitchenDashboard.tsx:48-53 | confirming an order on a screen of confirmed orders changes nothing |
| KitchenDashboard.TapLineRules | frontend/src/pages/kitchen/KitchenDashboard.tsx:73-88 | a prepared line or a failed request changes nothing; an accepted tap does what the event does, so the event arriving later changes nothing more |
| KitchenDashboard.ElapsedRules | frontend/src/pages/kitchen/KitchenDashboard.tsx:90-96 | "Just now" exactly under a minute; otherwise the label stands for the whole minutes elapsed, as minutes below an hour and as hours and minutes under 60 above |
| KitchenDashboard.ElapsedMonotone | frontend/src/pages/kitchen/KitchenDashboard.tsx:90-96 | a later moment never shows fewer minutes |
| CashierDashboard.NewOrder | frontend/src/pages/cashier/CashierDashboard.tsx:33-36 | a new order goes on top |
| CashierDashboard.Replaced | frontend/src/pages/cashier/CashierDashboard.tsx:57-59 | orders with the id become the server's answer; others stay |
| CashierDashboard.TogglePayRules | frontend/src/pages/cashier/CashierDashboard.tsx:54-64 | a failed request changes nothing; the answer replaces exactly the orders with the id; the same answer twice changes nothing more |
| CashierDashboard.FilteredRules | frontend/src/pages/cashier/CashierDashboard.tsx:66 | "all" keeps the list; a status tab keeps exactly the orders with that status, in their order |
| CashierDashboard.RevenueSplit | frontend/src/pages/cashier/CashierDashboard.tsx:68-74 | when every order is confirmed or paid, revenue plus pending equals the sum over all orders |
| CashierDashboard.PayMovesTotal | frontend/src/pages/cashier/CashierDashboard.tsx:57-74 | paying a confirmed order moves its total from pending to revenue |
| CashierDashboard.SubtotalsMatchTotal | frontend/src/pages/cashier/CashierDashboard.tsx:171 | the line subtotals, price × quantity, add up to the total the server computed |
| CashierDashboard.SubtotalNonNegative | frontend/src/pages/cashier/CashierDashboard.tsx:171 | a valid line's subtotal is not negative |
| InventoryManagement.FindUpdate | frontend/src/pages/admin/InventoryManagement.tsx:40 | finds an update for the id exactly when the event carries one, and then the first one |
| InventoryManagement.Merge | frontend/src/pages/admin/InventoryManagement.tsx:37-44 | the merge keeps length and order and refreshes each item from the event |
| InventoryManagement.MergeRules | frontend/src/pages/admin/InventoryManagement.tsx:37-44 | a matching item takes only stock and time from the update; name, unit and id stay; other items are unchanged |
| InventoryManagement.MergeIgnoresUnknown | frontend/src/pages/admin/InventoryManagement.tsx:37-44 | updates for ids the list does not hold change nothing |
| InventoryManagement.MergeIdempotent | frontend/src/pages/admin/InventoryManagement.tsx:37-44 | an empty event changes nothing, and the same event twice is the same as once |
| InventoryManagement.AddStock | frontend/src/pages/admin/InventoryManagement.tsx:67 | an unparsable stock is sent as 0 |
| InventoryManagement.Saved | frontend/src/pages/admin/InventoryManagement.tsx:96 | entries with the id become the server's copy; others stay |
| InventoryManagement.ListUpdateRules | frontend/src/pages/admin/InventoryManagement.tsx:62-113 | add appends the server's copy; save keeps ids unique; delete removes exactly the entries with the id; a failed request changes nothing |
| InventoryManagement.SaveThenDelete | frontend/src/pages/admin/InventoryManagement.tsx:89-113 | saving then deleting an id leaves what deleting alone leaves |
| InventoryManagement.StockLabelRules | frontend/src/pages/admin/InventoryManagement.tsx:121-125 | "Out of stock" exactly at or below 0, "Low stock" exactly below 10, "In stock" exactly from 10 |
| InventoryManagement.StockBadgeAgrees | frontend/src/pages/admin/InventoryManagement.tsx:115-125 | two amounts get the same badge exactly when they get the same label |
| InventoryManagement.LevelTextsDistinct | frontend/src/pages/admin/InventoryManagement.tsx:115-125 | each level has its own label and its own badge |
| InventoryManagement.LevelMonotone | frontend/src/pages/admin/InventoryManagement.tsx:115-125 | more stock never shows a worse level |
| MenuManagement.IsSelected | frontend/src/pages/admin/MenuManagement.tsx:198 | holds exactly when some entry has the id |
| MenuManagement.ToggleRules | frontend/src/pages/admin/MenuManagement.tsx:182-190 | a tap flips whether the item is selected; an unselected item is appended with quantity 1; other entries stay |
| MenuManagement.ToggleTwice | frontend/src/pages/admin/MenuManagement.tsx:182-190 | tapping an unselected item twice gives back the selection |
| MenuManagement.ToggleKeepsUnique | frontend/src/pages/admin/MenuManagement.tsx:182-190 | toggling never creates duplicate ids |
| MenuManagement.UpdateQty | frontend/src/pages/admin/MenuManagement.tsx:192-196 | only the quantity of the entry with the id changes |
| MenuManagement.UpdateQtyRules | frontend/src/pages/admin/MenuManagement.tsx:192-196 | editing a quantity selects nothing new, keeps ids unique, and only the last edit counts |
| MenuManagement.FilteredInventoryRules | frontend/src/pages/admin/MenuManagement.tsx:200-202 | keeps exactly the items whose lower-cased name contains the lower-cased search; an empty search keeps all |
| MenuManagement.FilteredInventoryIgnoresCase | frontend/src/pages/admin/MenuManagement.tsx:200-202 | the search ignores the case of ASCII letters in its own text |
| MenuManagement.AddNewInventoryRules | frontend/src/pages/admin/MenuManagement.tsx:204-224 | a created item is listed and selected with quantity 1, keeping ids unique; a failure changes nothing |
| MenuManagement.EditSelection | frontend/src/pages/admin/MenuManagement.tsx:151-169 | the handler fails exactly on an ingredient whose inventory document is gone; otherwise one entry per ingredient, in order |
| MenuManagement.Payload | frontend/src/pages/admin/MenuManagement.tsx:129-132 | one (inventory id, qty) per selected entry |
| MenuManagement.EditRoundTrip | frontend/src/pages/admin/MenuManagement.tsx:125-166 | opening a dish shows each ingredient's name or "Unknown", and saving unchanged sends back exactly the stored ingredients |
| MenuManagement.QtyTextWhole | frontend/src/pages/admin/MenuManagement.tsx:230 | a whole quantity is written as its integer |
| MenuManagement.SummaryRules | frontend/src/pages/admin/MenuManagement.tsx:226-233 | "—" exactly without ingredients; otherwise "name ×qty" per ingredient joined by ", " |
| Common.TrimSlice | backend/src/routes/admin.ts:362 | `trim()` gives the slice of the input between its leading and its trailing whitespace, with no whitespace at either end |
| Common.TrimIdempotent | backend/src/routes/admin.ts:362 | a trimmed string is unchanged by trimming again |
| Common.ToLowerIdempotent | frontend/src/pages/admin/MenuManagement.tsx:201 | lower-casing twice is lower-casing once |
| Common.SplitAtSeparator | frontend/src/pages/admin/Settings.tsx:68 | `split` cuts at the first separator and goes on with the rest |
| Common.ParseIntOfNat | backend/src/routes/kitchen.ts:77 | `parseInt` of a number's decimal text gives that number |
| Common.Filter | frontend/src/pages/admin/InventoryManagement.tsx:108 | `filter` keeps the elements that pass and only those |
| Common.FilterPositions | frontend/src/pages/admin/InventoryManagement.tsx:108 | `filter`'s result is the passing elements at strictly increasing positions of the input, every passing position included |
| Common.FilterCounts | backend/src/routes/admin.ts:429 | `filter` keeps every passing element as often as the input holds it, and drops every other one |

## Left out

- Storage. Database reads and writes (`find`, `populate`, `save`, `updateMany`, `countDocuments`) become reads and writes of the store's fields. Startup migrations and seeding are database I/O and are not part of this model.
- Real-time delivery. Socket.IO emits become messages appended to the outbox; only the role → room join rule is modelled.
- Authentication. JWT handling, password hashing and the login route are foreign calls; the caller's identity and role are parameters. A stored password is its plain text.
- Concurrency. Each handler runs to completion, so the lack of locking between the stock check and the deduction, and the race on the unique-username index, are not modelled.
- Floating point. Quantities are integers scaled by 10 000, which makes the four-decimal rounding exact. Prices are integer cents. `toFixed(2)` display is not modelled.
- Text parsing. `parseFloat` on the stock field is its result as an `Option`. `parseInt` is modelled on leading decimal digits after optional spaces and a sign; radix prefixes are not modelled.
- Clocks. `Date.now()` and `createdAt` are integers the caller passes. The listing's `createdAt` sort is modelled as reverse storage order, which is the same order because ids grow with time.
- Routes not in this model: menu CRUD, inventory PUT, the general settings PUT, user and menu GET lists, reports, and the waiter's own order list.
- Screens not in this model: the login, layout, routing, admin dashboard, reports, user management and waiter orders pages, which are display only; JSX rendering, toasts, `confirm()` dialogs and navigation.
- Request shapes. Request fields the server reads as untyped JSON are typed here. A role or hall type outside its enum, and a non-array `items`, cannot be expressed; an empty `items` list and a missing table can.
- WaiterDashboard.SortedDistinctNames: orders names by code unit, not by `localeCompare`'s locale collation.
- InventoryManagement.StockLabelRules: stock values are scaled integers, so thresholds compare with 10 × 10 000.
- MenuManagement.QtyTextWhole: only whole quantities are proved to print as JavaScript prints them; fractional ones are written with up to four decimals without trailing zeros.
- KitchenRoutes.MarkPreparedErrors: an index that `parseInt` reads as NaN fails with 500, because the code reaches `items[NaN]` and throws; a negative or too large index fails with 404.
- Common.ToLower: maps the ASCII letters A–Z only. JavaScript's `toLowerCase` maps every Unicode letter, so wherever the source compares lower-cased text (the routing key and the ingredient search) two strings that differ only in the case of a non-ASCII letter stay different here.
- WaiterRoutes.CreateOrder, WaiterRoutes.Apply, WaiterRoutes.Accept, WaiterRoutes.Announcements, WaiterRoutes.Announced and WaiterRoutes.PostOrder: the station lists in the announcements use the corrected own-property lookup (`Routing.ItemRole`). As written, the source sends a line whose category is "__proto__", or an unmapped "constructor", to no station; here such a line goes to its mapped station or the kitchen. `Routing.AsWrittenDiffersOnlyOnInheritedKey` states exactly where the two lookups differ, and the Findings table records it.
- KitchenRoutes.TicketOf, KitchenRoutes.Tickets, KitchenRoutes.Feed, KitchenRoutes.FeedExact, KitchenRoutes.FeedComplete and KitchenRoutes.GetStationOrders: the station feed uses the same corrected lookup, so for those two keys it lists a line that the source's feed drops.
- Routing.RoleKeyNormalises: case folding covers ASCII letters only. JavaScript's `toLowerCase` also folds other letters (the default categories are Azerbaijani, e.g. "Çərəzlər"), so two category names differing only in the case of a non-ASCII letter are distinct keys here.
- MenuManagement.FilteredInventoryIgnoresCase: the same ASCII-only case folding, so the search does not ignore the case of non-ASCII letters.
- The shortage error carries the item's name ("Unknown" when missing or empty), the demand and the stock as values; the message text around them is not modelled.

## Findings

| source | as written | input that shows it | evidently intended | confidence | as-written member | corrected member |
|---|---|---|---|---|---|---|
| backend/src/routes/waiter.ts:139-165 | `categoryRoles[lower]` looks up a plain object, so an unmapped key that names an inherited property (`constructor`) returns a function; the role is then neither "kitchen" nor "bar" and the line goes on neither station's list (the same lookup is in backend/src/routes/kitchen.ts:36-48, so the station feed drops it too) | an order line whose category is "constructor" (any case, any surrounding spaces) with no such category in the settings | an unmapped category without a drink keyword goes to the kitchen | not executed | Routing.ConstructorLineLost | Routing.ConstructorLineToKitchen |
| backend/src/routes/waiter.ts:139-165 | the map is built by assigning `categoryRoles[key] = role` on a plain object; for the key `__proto__` that assignment goes to the prototype setter, which ignores a string, so no entry is stored, and the lookup then returns the inherited prototype object, which is neither "kitchen" nor "bar" | an order line whose category is "__proto__" (any case, any surrounding spaces), whether or not the settings map that category | a category takes its mapped station, and an unmapped one without a drink keyword goes to the kitchen | not executed | Routing.ProtoLineLost | Routing.ProtoLineRouted |
