/**
 * POST /api/waiter/orders (backend/src/routes/waiter.ts): a waiter's order
 * for a table.
 *
 * The handler validates the request, resolves every line against the menu
 * (snapshotting name, price and category) while adding up how much of each
 * inventory item the order needs, checks every such total against stock,
 * saves the order, deducts stock once per (line, ingredient) pair with a
 * usage log for each, and finally announces the order: the touched
 * inventory items to the admin room, the kitchen's and the bar's lines
 * (without prices) to their rooms, and every priced line to the cashier.
 *
 * `CreateOrder` is the whole request as a function of the World; the
 * method `PostOrder` runs the handler's loops on a `Db` and is proved to
 * end in the state and response `CreateOrder` gives.
 */
module WaiterRoutes {
  import opened Common
  import opened OrderModel
  import opened MenuModel
  import opened InventoryModel
  import opened SettingsModel
  import opened Routing
  import opened Realtime
  import opened Store

  /** One entry of the request's `items`. */
  datatype RequestLine = RequestLine(menuItemId: MenuId, quantity: int)

  /** The response to the waiter: no prices. */
  datatype ReceiptLine = ReceiptLine(name: string, quantity: int)
  datatype Receipt = Receipt(id: OrderId, tableNumber: string, lines: seq<ReceiptLine>, status: OrderStatus)

  const RequiredMessage: string := "Table number and items are required."

  // ---------------------------------------------------------------------
  // Ingredient use: one entry per (line, ingredient) pair
  // ---------------------------------------------------------------------

  /** An inventory item and the amount one (line, ingredient) pair uses of
      it: the recipe amount times the line's quantity. */
  datatype Use = Use(inventoryId: InvId, amount: int)

  function LineUses(ings: seq<Ingredient>, quantity: int): (us: seq<Use>)
    ensures |us| == |ings|
    ensures forall k :: 0 <= k < |ings| ==> us[k] == Use(ings[k].inventoryItem, ings[k].qty * quantity)
  {
    if |ings| == 0 then []
    else
      var g := ings[|ings| - 1];
      LineUses(ings[..|ings| - 1], quantity) + [Use(g.inventoryItem, g.qty * quantity)]
  }

  /** The uses of every line whose menu item exists, line after line. */
  function OrderUses(menu: map<MenuId, MenuItem>, lines: seq<RequestLine>): seq<Use>
  {
    if |lines| == 0 then []
    else
      var l := lines[|lines| - 1];
      OrderUses(menu, lines[..|lines| - 1])
        + (if l.menuItemId in menu then LineUses(menu[l.menuItemId].ingredients, l.quantity) else [])
  }

  /** The total amount `uses` take of one inventory item. */
  function SumFor(uses: seq<Use>, id: InvId): int
  {
    if |uses| == 0 then 0
    else SumFor(uses[..|uses| - 1], id) + (if uses[|uses| - 1].inventoryId == id then uses[|uses| - 1].amount else 0)
  }

  // ---------------------------------------------------------------------
  // Demand: the requirements Map, keyed by inventory id in insertion order
  // ---------------------------------------------------------------------

  datatype Demand = Demand(keys: seq<InvId>, total: map<InvId, int>)

  /** The Map's `has` / `get(...).totalNeeded +=` / `set` step. */
  function AddUse(d: Demand, u: Use): Demand
  {
    if u.inventoryId in d.total then Demand(d.keys, d.total[u.inventoryId := d.total[u.inventoryId] + u.amount])
    else Demand(d.keys + [u.inventoryId], d.total[u.inventoryId := u.amount])
  }

  function Aggregate(uses: seq<Use>): Demand
  {
    if |uses| == 0 then Demand([], map[]) else AddUse(Aggregate(uses[..|uses| - 1]), uses[|uses| - 1])
  }

  /** The keys are the map's keys, each once. */
  predicate WellFormed(d: Demand)
  {
    && (forall i, j :: 0 <= i < j < |d.keys| ==> d.keys[i] != d.keys[j])
    && (forall i :: 0 <= i < |d.keys| ==> d.keys[i] in d.total)
    && (forall id :: id in d.total ==> id in d.keys)
  }

  /** The inventory ids `uses` mention. */
  function UsedIds(uses: seq<Use>): set<InvId>
  {
    set u | u in uses :: u.inventoryId
  }

  /** The aggregated demand holds one entry per inventory item the order
      uses, whose total is the sum of that item's uses over all lines and
      ingredients. */
  lemma {:induction false} AggregateSums(uses: seq<Use>)
    ensures WellFormed(Aggregate(uses))
    ensures Aggregate(uses).total.Keys == UsedIds(uses)
    ensures forall id :: id in Aggregate(uses).total ==> Aggregate(uses).total[id] == SumFor(uses, id)
  {
    if |uses| > 0 {
      var init := uses[..|uses| - 1];
      var u := uses[|uses| - 1];
      AggregateSums(init);
      var d0 := Aggregate(init);
      var d := Aggregate(uses);
      assert d == AddUse(d0, u);
      assert uses == init + [u];
      UsedIdsSnoc(init, u);
      forall id | id in d.total ensures d.total[id] == SumFor(uses, id) {
        assert SumFor(uses, id) == SumFor(init, id) + (if u.inventoryId == id then u.amount else 0);
        if id !in d0.total {
          SumForAbsent(init, id);
        }
      }
      AddUseWellFormed(d0, u);
    }
  }

  lemma UsedIdsSnoc(init: seq<Use>, u: Use)
    ensures UsedIds(init + [u]) == UsedIds(init) + {u.inventoryId}
  {
    var uses := init + [u];
    forall x | x in uses ensures x in init || x == u {
      var k :| 0 <= k < |uses| && uses[k] == x;
      if k < |init| { assert init[k] == x; }
    }
    forall x | x in init ensures x in uses {
      var k :| 0 <= k < |init| && init[k] == x;
      assert uses[k] == x;
    }
  }

  /** Adding a use keeps one key per entry. */
  lemma AddUseWellFormed(d0: Demand, u: Use)
    requires WellFormed(d0)
    ensures WellFormed(AddUse(d0, u))
  {
    var d := AddUse(d0, u);
    if u.inventoryId !in d0.total {
      assert u.inventoryId !in d0.keys;
      assert d.keys == d0.keys + [u.inventoryId];
      forall i, j | 0 <= i < j < |d.keys| ensures d.keys[i] != d.keys[j] {
        if j < |d0.keys| { assert d.keys[i] == d0.keys[i] && d.keys[j] == d0.keys[j]; }
      }
    }
  }

  lemma {:induction false} SumForNonNegative(uses: seq<Use>, id: InvId)
    requires forall k :: 0 <= k < |uses| ==> uses[k].amount >= 0
    ensures SumFor(uses, id) >= 0
  {
    if |uses| > 0 {
      SumForNonNegative(uses[..|uses| - 1], id);
    }
  }

  /** With non-negative amounts, a prefix never uses more than the whole. */
  lemma {:induction false} SumForPrefix(uses: seq<Use>, n: nat, id: InvId)
    requires n <= |uses|
    requires forall k :: 0 <= k < |uses| ==> uses[k].amount >= 0
    ensures SumFor(uses[..n], id) <= SumFor(uses, id)
  {
    if n < |uses| {
      var init := uses[..|uses| - 1];
      assert uses[..n] == init[..n];
      assert forall k :: 0 <= k < |init| ==> init[k] == uses[k];
      SumForPrefix(init, n, id);
      assert SumFor(uses, id) == SumFor(init, id) + (if uses[|uses| - 1].inventoryId == id then uses[|uses| - 1].amount else 0);
    } else {
      assert uses[..n] == uses;
    }
  }

  // ---------------------------------------------------------------------
  // Resolution: the first loop over the request's lines
  // ---------------------------------------------------------------------

  /** The order lines built so far and their running total. */
  datatype Resolved = Resolved(items: seq<OrderItem>, totalPrice: int)

  /** The line's snapshot of its menu item; `category || ''` keeps the
      category as it is. */
  function Snapshot(l: RequestLine, m: MenuItem): OrderItem
  {
    NewOrderItem(l.menuItemId, m.name, l.quantity, m.price, m.category)
  }

  /** Some ingredient refers to an inventory item that no longer exists:
      its populated reference is null. */
  predicate Dangling(inventory: map<InvId, InventoryItem>, m: MenuItem)
  {
    exists k :: 0 <= k < |m.ingredients| && m.ingredients[k].inventoryItem !in inventory
  }

  /** The line's menu item is missing or inactive. */
  predicate Unavailable(menu: map<MenuId, MenuItem>, l: RequestLine)
  {
    l.menuItemId !in menu || !menu[l.menuItemId].isActive
  }

  /** One step of the first loop: a missing or inactive menu item is a 400;
      a dangling ingredient reference throws (500); otherwise the line is
      snapshotted and its price added. */
  function ResolveLine(menu: map<MenuId, MenuItem>, inventory: map<InvId, InventoryItem>,
                       r: Resolved, l: RequestLine): Result<Resolved, ApiError>
  {
    if Unavailable(menu, l) then Failure(MenuItemNotFound(l.menuItemId))
    else
      var m := menu[l.menuItemId];
      if Dangling(inventory, m) then Failure(ServerError)
      else Success(Resolved(r.items + [Snapshot(l, m)], r.totalPrice + m.price * l.quantity))
  }

  function Resolve(menu: map<MenuId, MenuItem>, inventory: map<InvId, InventoryItem>,
                   lines: seq<RequestLine>): Result<Resolved, ApiError>
  {
    if |lines| == 0 then Success(Resolved([], 0))
    else
      match Resolve(menu, inventory, lines[..|lines| - 1])
      case Failure(e) => Failure(e)
      case Success(r) => ResolveLine(menu, inventory, r, lines[|lines| - 1])
  }

  /** Resolving one more line. */
  lemma ResolveSnoc(menu: map<MenuId, MenuItem>, inventory: map<InvId, InventoryItem>, lines: seq<RequestLine>, i: nat)
    requires i < |lines|
    ensures var prev := Resolve(menu, inventory, lines[..i]);
      Resolve(menu, inventory, lines[..i + 1])
        == if prev.Failure? then Failure(prev.error) else ResolveLine(menu, inventory, prev.value, lines[i])
  {
    assert lines[..i + 1][..i] == lines[..i];
  }

  /** A line that is unavailable or has a dangling ingredient, after a
      prefix that resolves, decides the whole request's failure. */
  lemma ResolveStops(menu: map<MenuId, MenuItem>, inventory: map<InvId, InventoryItem>, lines: seq<RequestLine>, i: nat)
    requires i < |lines| && Resolve(menu, inventory, lines[..i]).Success?
    requires Unavailable(menu, lines[i]) || Dangling(inventory, menu[lines[i].menuItemId])
    ensures Resolve(menu, inventory, lines)
         == if Unavailable(menu, lines[i]) then Failure(MenuItemNotFound(lines[i].menuItemId)) else Failure(ServerError)
  {
    ResolveSnoc(menu, inventory, lines, i);
    ResolveFailureSticks(menu, inventory, lines, i + 1);
  }

  /** A line that resolves extends the prefix's snapshots, total and uses. */
  lemma ResolveAdvances(menu: map<MenuId, MenuItem>, inventory: map<InvId, InventoryItem>, lines: seq<RequestLine>,
                        i: nat, r: Resolved)
    requires i < |lines| && Resolve(menu, inventory, lines[..i]) == Success(r)
    requires !Unavailable(menu, lines[i]) && !Dangling(inventory, menu[lines[i].menuItemId])
    ensures var l := lines[i]; var m := menu[l.menuItemId];
      Resolve(menu, inventory, lines[..i + 1]) == Success(Resolved(r.items + [Snapshot(l, m)], r.totalPrice + m.price * l.quantity))
    ensures OrderUses(menu, lines[..i + 1])
         == OrderUses(menu, lines[..i]) + LineUses(menu[lines[i].menuItemId].ingredients, lines[i].quantity)
  {
    ResolveSnoc(menu, inventory, lines, i);
    OrderUsesSnoc(menu, lines, i);
  }

  /** The uses of one more line whose menu item exists. */
  lemma OrderUsesSnoc(menu: map<MenuId, MenuItem>, lines: seq<RequestLine>, i: nat)
    requires i < |lines| && lines[i].menuItemId in menu
    ensures OrderUses(menu, lines[..i + 1])
         == OrderUses(menu, lines[..i]) + LineUses(menu[lines[i].menuItemId].ingredients, lines[i].quantity)
  {
    assert lines[..i + 1][..i] == lines[..i];
  }

  /** Once a prefix of the lines fails, the whole request fails the same way. */
  lemma {:induction false} ResolveFailureSticks(menu: map<MenuId, MenuItem>, inventory: map<InvId, InventoryItem>,
                                                lines: seq<RequestLine>, n: nat)
    requires n <= |lines| && Resolve(menu, inventory, lines[..n]).Failure?
    ensures Resolve(menu, inventory, lines) == Resolve(menu, inventory, lines[..n])
  {
    if n < |lines| {
      var init := lines[..|lines| - 1];
      assert init[..n] == lines[..n];
      ResolveFailureSticks(menu, inventory, init, n);
    } else {
      assert lines[..n] == lines;
    }
  }

  /** A successful resolution snapshots every line, in order, and its total
      is the sum of price times quantity over the snapshots. */
  lemma {:induction false} ResolveSnapshots(menu: map<MenuId, MenuItem>, inventory: map<InvId, InventoryItem>,
                                            lines: seq<RequestLine>)
    requires Resolve(menu, inventory, lines).Success?
    ensures var r := Resolve(menu, inventory, lines).value;
      && |r.items| == |lines|
      && (forall k :: 0 <= k < |lines| ==>
            !Unavailable(menu, lines[k]) && r.items[k] == Snapshot(lines[k], menu[lines[k].menuItemId]))
      && r.totalPrice == LinesTotal(r.items)
  {
    if |lines| > 0 {
      var n := |lines| - 1;
      var init := lines[..n];
      ResolveLast(menu, inventory, lines);
      ResolveSnapshots(menu, inventory, init);
      var r0 := Resolve(menu, inventory, init).value;
      var r := Resolve(menu, inventory, lines).value;
      var x := Snapshot(lines[n], menu[lines[n].menuItemId]);
      assert r.items == r0.items + [x];
      assert r.items[..n] == r0.items;
      assert LinesTotal(r.items) == LinesTotal(r0.items) + x.price * x.quantity;
      forall k | 0 <= k < n
        ensures !Unavailable(menu, lines[k]) && r.items[k] == Snapshot(lines[k], menu[lines[k].menuItemId])
      {
        assert init[k] == lines[k];
      }
    }
  }

  /** A request that resolves resolves without its last line, and the last
      line is available and adds its snapshot and price. */
  lemma ResolveLast(menu: map<MenuId, MenuItem>, inventory: map<InvId, InventoryItem>, lines: seq<RequestLine>)
    requires |lines| > 0 && Resolve(menu, inventory, lines).Success?
    ensures var n := |lines| - 1; var l := lines[n];
      && Resolve(menu, inventory, lines[..n]).Success?
      && !Unavailable(menu, l)
      && var r0 := Resolve(menu, inventory, lines[..n]).value; var m := menu[l.menuItemId];
        Resolve(menu, inventory, lines).value == Resolved(r0.items + [Snapshot(l, m)], r0.totalPrice + m.price * l.quantity)
  {
  }

  /** A line whose menu item is missing or inactive makes resolution fail,
      whatever comes before or after it. */
  lemma {:induction false} ResolveRejectsUnavailable(menu: map<MenuId, MenuItem>, inventory: map<InvId, InventoryItem>,
                                                     lines: seq<RequestLine>, k: nat)
    requires k < |lines| && Unavailable(menu, lines[k])
    ensures Resolve(menu, inventory, lines).Failure?
  {
    var pre := lines[..k + 1];
    assert pre[..k] == lines[..k];
    assert Resolve(menu, inventory, pre).Failure?;
    ResolveFailureSticks(menu, inventory, lines, k + 1);
  }

  /** A successful resolution leaves no ingredient reference dangling. */
  lemma {:induction false} ResolveNoDangling(menu: map<MenuId, MenuItem>, inventory: map<InvId, InventoryItem>,
                                             lines: seq<RequestLine>)
    requires Resolve(menu, inventory, lines).Success?
    ensures forall u :: u in OrderUses(menu, lines) ==> u.inventoryId in inventory
  {
    if |lines| > 0 {
      var init := lines[..|lines| - 1];
      ResolveNoDangling(menu, inventory, init);
      var l := lines[|lines| - 1];
      var us := LineUses(menu[l.menuItemId].ingredients, l.quantity);
      forall u | u in us ensures u.inventoryId in inventory {
        var k :| 0 <= k < |us| && us[k] == u;
      }
    }
  }

  // ---------------------------------------------------------------------
  // Stock check: the second loop, over the demand in insertion order
  // ---------------------------------------------------------------------

  function Needed(d: Demand, id: InvId): int
  {
    if id in d.total then d.total[id] else 0
  }

  /** The rejection for the first key (in `keys`) whose item is missing or
      has less stock than needed; `name || 'Unknown'` and `stock || 0`. */
  function FirstShortage(inventory: map<InvId, InventoryItem>, d: Demand, keys: seq<InvId>): Option<ApiError>
  {
    if |keys| == 0 then None
    else
      var id := keys[0];
      if id !in inventory then Some(InsufficientStock("Unknown", Needed(d, id), 0))
      else if inventory[id].stock < Needed(d, id) then
        Some(InsufficientStock(if inventory[id].name == "" then "Unknown" else inventory[id].name,
                               Needed(d, id), inventory[id].stock))
      else FirstShortage(inventory, d, keys[1..])
  }

  /** There is no shortage exactly when every key's item exists and has at
      least the needed stock (equality is enough). */
  lemma {:induction false} FirstShortageNone(inventory: map<InvId, InventoryItem>, d: Demand, keys: seq<InvId>)
    ensures FirstShortage(inventory, d, keys).None? <==>
      forall i :: 0 <= i < |keys| ==> keys[i] in inventory && inventory[keys[i]].stock >= Needed(d, keys[i])
  {
    if |keys| > 0 {
      FirstShortageNone(inventory, d, keys[1..]);
      assert forall i :: 1 <= i < |keys| ==> keys[i] == keys[1..][i - 1];
    }
  }

  // ---------------------------------------------------------------------
  // Deduction: the third loop, one step per (line, ingredient) pair
  // ---------------------------------------------------------------------

  /** The inventory after the deductions so far, the logs written, and the
      ids pushed to `updatedInventoryIds`. */
  datatype Deduction = Deduction(inventory: map<InvId, InventoryItem>, logs: seq<InventoryLog>, updated: seq<InvId>)

  /** One deduction: a missing item is skipped; otherwise its stock drops by
      the use's amount (the four-decimal rounding is exact on scaled
      integers), its time is updated, and a log records before and after. */
  function DeductUse(s: Deduction, u: Use, orderId: OrderId, table: string, now: int): Deduction
  {
    if u.inventoryId !in s.inventory then s
    else
      var item := s.inventory[u.inventoryId];
      var after := item.stock - u.amount;
      Deduction(
        s.inventory[u.inventoryId := item.(stock := after, lastUpdated := now)],
        s.logs + [InventoryLog(u.inventoryId, item.name, u.amount, item.stock, after, orderId, table, now)],
        s.updated + [u.inventoryId])
  }

  function Deduct(inventory: map<InvId, InventoryItem>, uses: seq<Use>, orderId: OrderId, table: string, now: int): Deduction
  {
    if |uses| == 0 then Deduction(inventory, [], [])
    else DeductUse(Deduct(inventory, uses[..|uses| - 1], orderId, table, now), uses[|uses| - 1], orderId, table, now)
  }

  /** When every use's item exists: the same items remain, with the same
      names and units, each stock lowered by the item's total use. */
  lemma {:induction false} DeductStock(inventory: map<InvId, InventoryItem>, uses: seq<Use>,
                                       orderId: OrderId, table: string, now: int)
    requires forall u :: u in uses ==> u.inventoryId in inventory
    ensures var s := Deduct(inventory, uses, orderId, table, now);
      && s.inventory.Keys == inventory.Keys
      && (forall id :: id in inventory ==>
            && s.inventory[id].stock == inventory[id].stock - SumFor(uses, id)
            && s.inventory[id].name == inventory[id].name
            && s.inventory[id].unit == inventory[id].unit)
      && |s.logs| == |uses| && |s.updated| == |uses|
  {
    if |uses| > 0 {
      var init := uses[..|uses| - 1];
      assert forall u :: u in init ==> u in uses;
      DeductStock(inventory, init, orderId, table, now);
    }
  }

  /** The log written for the k-th use: the before-stock is the item's
      stock less its uses so far, the after-stock that less this amount. */
  function LogFor(inventory: map<InvId, InventoryItem>, uses: seq<Use>, k: nat,
                  orderId: OrderId, table: string, now: int): InventoryLog
    requires k < |uses| && uses[k].inventoryId in inventory
  {
    var u := uses[k];
    var item := inventory[u.inventoryId];
    var before := item.stock - SumFor(uses[..k], u.inventoryId);
    InventoryLog(u.inventoryId, item.name, u.amount, before, before - u.amount, orderId, table, now)
  }

  /** When every use's item exists, the k-th log written is the log for
      the k-th use: its after-stock is its before-stock minus the amount. */
  lemma {:induction false} DeductLogAt(inventory: map<InvId, InventoryItem>, uses: seq<Use>, k: nat,
                                       orderId: OrderId, table: string, now: int)
    requires forall u :: u in uses ==> u.inventoryId in inventory
    requires k < |uses|
    ensures |Deduct(inventory, uses, orderId, table, now).logs| == |uses|
    ensures Deduct(inventory, uses, orderId, table, now).logs[k] == LogFor(inventory, uses, k, orderId, table, now)
  {
    var n := |uses| - 1;
    var init := uses[..n];
    assert forall u :: u in init ==> u in uses;
    DeductStock(inventory, init, orderId, table, now);
    assert uses[n] in uses;
    if k < n {
      DeductLogAt(inventory, init, k, orderId, table, now);
      assert init[..k] == uses[..k];
      assert LogFor(inventory, init, k, orderId, table, now) == LogFor(inventory, uses, k, orderId, table, now);
    } else {
      assert init == uses[..k];
    }
  }

  // ---------------------------------------------------------------------
  // Announcements
  // ---------------------------------------------------------------------

  function PricedLines(items: seq<OrderItem>): (ps: seq<PricedLine>)
    ensures |ps| == |items|
    ensures forall k :: 0 <= k < |items| ==> ps[k] == PricedLine(items[k].name, items[k].quantity, items[k].price)
  {
    if |items| == 0 then []
    else
      var i := items[|items| - 1];
      PricedLines(items[..|items| - 1]) + [PricedLine(i.name, i.quantity, i.price)]
  }

  function ReceiptLines(items: seq<OrderItem>): (rs: seq<ReceiptLine>)
    ensures |rs| == |items|
    ensures forall k :: 0 <= k < |items| ==> rs[k] == ReceiptLine(items[k].name, items[k].quantity)
  {
    if |items| == 0 then []
    else ReceiptLines(items[..|items| - 1]) + [ReceiptLine(items[|items| - 1].name, items[|items| - 1].quantity)]
  }

  /** The inventory items whose ids were pushed, as `Inventory.find` with
      `$in` returns them. */
  function UpdatedItems(inventory: map<InvId, InventoryItem>, ids: seq<InvId>): map<InvId, InventoryItem>
  {
    map id | id in ids && id in inventory :: inventory[id]
  }

  /** The ticket announced to one station, if it has any lines. */
  function StationMessage(room: Room, o: Order, lines: seq<TicketLine>): seq<Message>
  {
    if |lines| > 0 then [Message({room}, NewStationOrder(o.id, o.tableNumber, lines, o.status, o.createdAt))] else []
  }

  function CashierMessage(o: Order): Message
  {
    Message({CashierRoom}, NewCashierOrder(o.id, o.tableNumber, PricedLines(o.items), o.totalPrice, o.status, o.createdAt))
  }

  /** Everything the handler emits after the deductions, in order, given
      the kitchen's and the bar's lines. */
  function Announcements(o: Order, inventory: map<InvId, InventoryItem>, updated: seq<InvId>,
                         kitchen: seq<TicketLine>, bar: seq<TicketLine>): seq<Message>
  {
    (if |updated| > 0 then [Message({AdminRoom}, InventoryUpdated(UpdatedItems(inventory, updated)))] else [])
      + StationMessage(KitchenRoom, o, kitchen)
      + StationMessage(BarRoom, o, bar)
      + [CashierMessage(o)]
  }

  // ---------------------------------------------------------------------
  // The whole request
  // ---------------------------------------------------------------------

  /** What an accepted request goes on to write: the order and the
      (line, ingredient) uses to deduct. */
  datatype Plan = Plan(order: Order, uses: seq<Use>)

  /** Everything up to and including the order's validation at save time:
      the request check (400), resolution (400 or 500), the stock check
      (400) and the order validators (500). */
  function Admit(w: World, user: UserId, table: string, lines: seq<RequestLine>, now: int): Result<Plan, ApiError>
  {
    if table == "" || |lines| == 0 then Failure(BadRequest(RequiredMessage))
    else
      match Resolve(w.menu, w.inventory, lines)
      case Failure(e) => Failure(e)
      case Success(r) =>
        var uses := OrderUses(w.menu, lines);
        var d := Aggregate(uses);
        match FirstShortage(w.inventory, d, d.keys)
        case Some(e) => Failure(e)
        case None =>
          var o := NewOrder(|w.orders|, table, r.items, r.totalPrice, user, now);
          if ValidOrder(o) then Success(Plan(o, uses)) else Failure(ServerError)
  }

  /** The writes of an accepted request: the order, the deductions and
      their logs, and the announcements. */
  function Apply(w: World, p: Plan): World
  {
    var o := p.order;
    var s := Deduct(w.inventory, p.uses, o.id, o.tableNumber, o.createdAt);
    var roles := RolesOf(w.settings);
    var sent := Announcements(o, s.inventory, s.updated, StationLines(o.items, roles, Kitchen), StationLines(o.items, roles, Bar));
    w.(orders := w.orders + [o], inventory := s.inventory, logs := w.logs + s.logs, outbox := w.outbox + sent)
  }

  function CreateOrder(w: World, user: UserId, table: string, lines: seq<RequestLine>, now: int)
    : (World, Result<Receipt, ApiError>)
  {
    match Admit(w, user, table, lines, now)
    case Failure(e) => (w, Failure(e))
    case Success(p) => (Apply(w, p), Success(Receipt(p.order.id, table, ReceiptLines(p.order.items), p.order.status)))
  }

  /** A missing table number or an empty item list is a 400 and changes
      nothing. */
  lemma RejectsEmptyRequest(w: World, user: UserId, table: string, lines: seq<RequestLine>, now: int)
    requires table == "" || |lines| == 0
    ensures CreateOrder(w, user, table, lines, now) == (w, Failure(BadRequest(RequiredMessage)))
  {
  }

  /** A line naming a missing or inactive menu item makes the request fail
      before anything is saved, deducted or announced. */
  lemma RejectsUnavailableItem(w: World, user: UserId, table: string, lines: seq<RequestLine>, now: int, k: nat)
    requires k < |lines| && Unavailable(w.menu, lines[k])
    ensures CreateOrder(w, user, table, lines, now).1.Failure?
    ensures CreateOrder(w, user, table, lines, now).0 == w
  {
    ResolveRejectsUnavailable(w.menu, w.inventory, lines, k);
  }

  /** The stock check over the aggregated demand passes exactly when every
      inventory item the uses mention exists and holds at least their total
      (equality is enough). */
  lemma ShortageExactly(inventory: map<InvId, InventoryItem>, uses: seq<Use>)
    ensures var d := Aggregate(uses);
      var passes := FirstShortage(inventory, d, d.keys).None?;
      passes <==> forall id :: id in UsedIds(uses) ==> id in inventory && SumFor(uses, id) <= inventory[id].stock
  {
    var d := Aggregate(uses);
    AggregateSums(uses);
    FirstShortageNone(inventory, d, d.keys);
    if FirstShortage(inventory, d, d.keys).None? {
      forall id | id in UsedIds(uses) ensures id in inventory && SumFor(uses, id) <= inventory[id].stock {
        assert id in d.total;
        var i :| 0 <= i < |d.keys| && d.keys[i] == id;
        assert Needed(d, d.keys[i]) == SumFor(uses, id);
      }
    } else {
      var i :| 0 <= i < |d.keys| && !(d.keys[i] in inventory && inventory[d.keys[i]].stock >= Needed(d, d.keys[i]));
      assert d.keys[i] in UsedIds(uses);
    }
  }

  lemma {:induction false} FirstShortageKind(inventory: map<InvId, InventoryItem>, d: Demand, keys: seq<InvId>)
    ensures FirstShortage(inventory, d, keys).Some? ==> FirstShortage(inventory, d, keys).value.InsufficientStock?
  {
    if |keys| > 0 {
      FirstShortageKind(inventory, d, keys[1..]);
    }
  }

  /** After a successful resolution, the stock check rejects the request
      exactly when some inventory item's total demand over all lines
      exceeds its stock; stock equal to demand passes. */
  lemma StockCheck(w: World, user: UserId, table: string, lines: seq<RequestLine>, now: int)
    requires table != "" && |lines| > 0 && Resolve(w.menu, w.inventory, lines).Success?
    ensures var uses := OrderUses(w.menu, lines);
      var a := Admit(w, user, table, lines, now);
      ((a.Failure? && a.error.InsufficientStock?)
        <==> (exists id :: id in UsedIds(uses) && id in w.inventory && w.inventory[id].stock < SumFor(uses, id)))
  {
    var uses := OrderUses(w.menu, lines);
    var d := Aggregate(uses);
    ResolveNoDangling(w.menu, w.inventory, lines);
    ShortageExactly(w.inventory, uses);
    FirstShortageKind(w.inventory, d, d.keys);
    forall id | id in UsedIds(uses) ensures id in w.inventory {
      var u :| u in uses && u.inventoryId == id;
    }
  }

  /** What acceptance means: the lines resolve, the stock check passes,
      and the plan is the new order with the lines' uses. */
  lemma AdmitSuccess(w: World, user: UserId, table: string, lines: seq<RequestLine>, now: int)
    requires Admit(w, user, table, lines, now).Success?
    ensures Resolve(w.menu, w.inventory, lines).Success?
    ensures var uses := OrderUses(w.menu, lines);
      var d := Aggregate(uses);
      var r := Resolve(w.menu, w.inventory, lines).value;
      && FirstShortage(w.inventory, d, d.keys).None?
      && Admit(w, user, table, lines, now).value == Plan(NewOrder(|w.orders|, table, r.items, r.totalPrice, user, now), uses)
  {
  }

  /** An accepted request's order is appended as a confirmed, unpaid order
      numbered by its position, whose lines snapshot the requested menu
      items in order (name, quantity, price, category, not prepared) and
      whose total is the sum of price times quantity; it is valid. */
  lemma AdmittedOrder(w: World, user: UserId, table: string, lines: seq<RequestLine>, now: int)
    requires Admit(w, user, table, lines, now).Success?
    ensures var o := Admit(w, user, table, lines, now).value.order;
      && o.id == |w.orders| && o.status == Confirmed && o.paidAt == None
      && o.tableNumber == table && o.createdBy == user && o.createdAt == now && |o.items| == |lines|
      && (forall k :: 0 <= k < |lines| ==>
            && lines[k].menuItemId in w.menu && w.menu[lines[k].menuItemId].isActive
            && o.items[k] == OrderItem(lines[k].menuItemId, w.menu[lines[k].menuItemId].name, lines[k].quantity,
                                       w.menu[lines[k].menuItemId].price, w.menu[lines[k].menuItemId].category, false))
      && o.totalPrice == LinesTotal(o.items)
      && ValidOrder(o)
    ensures Admit(w, user, table, lines, now).value.uses == OrderUses(w.menu, lines)
  {
    ResolveSnapshots(w.menu, w.inventory, lines);
  }

  /** An accepted request references only existing inventory items and
      needs of each no more than its stock. */
  lemma AdmittedStock(w: World, user: UserId, table: string, lines: seq<RequestLine>, now: int)
    requires Admit(w, user, table, lines, now).Success?
    ensures var uses := OrderUses(w.menu, lines);
      && (forall u :: u in uses ==> u.inventoryId in w.inventory)
      && (forall u :: u in uses ==> SumFor(uses, u.inventoryId) <= w.inventory[u.inventoryId].stock)
  {
    AdmitSuccess(w, user, table, lines, now);
    ResolveNoDangling(w.menu, w.inventory, lines);
    ShortageExactly(w.inventory, OrderUses(w.menu, lines));
  }

  lemma {:induction false} SumForAbsent(uses: seq<Use>, id: InvId)
    requires id !in UsedIds(uses)
    ensures SumFor(uses, id) == 0
  {
    if |uses| > 0 {
      var init := uses[..|uses| - 1];
      assert forall u :: u in init ==> u in uses;
      SumForAbsent(init, id);
      assert uses[|uses| - 1] in uses;
    }
  }

  /** When every use's item exists, the k-th log written is the log for
      that use, naming the order and the table. */
  lemma DeductLogs(inventory: map<InvId, InventoryItem>, uses: seq<Use>,
                   orderId: OrderId, table: string, now: int)
    requires forall u :: u in uses ==> u.inventoryId in inventory
    ensures var s := Deduct(inventory, uses, orderId, table, now);
      && |s.logs| == |uses|
      && (forall k :: 0 <= k < |uses| ==> s.logs[k] == LogFor(inventory, uses, k, orderId, table, now))
  {
    DeductStock(inventory, uses, orderId, table, now);
    forall k | 0 <= k < |uses|
      ensures Deduct(inventory, uses, orderId, table, now).logs[k] == LogFor(inventory, uses, k, orderId, table, now)
    {
      DeductLogAt(inventory, uses, k, orderId, table, now);
    }
  }

  /** With no use above the stock available and no negative amount, no
      stock goes below zero, not even between two deductions: every log's
      after-stock, and every final stock, is at least zero. */
  lemma DeductNonNegative(inventory: map<InvId, InventoryItem>, uses: seq<Use>,
                          orderId: OrderId, table: string, now: int)
    requires forall u :: u in uses ==> u.inventoryId in inventory
    requires forall k :: 0 <= k < |uses| ==> uses[k].amount >= 0
    requires forall u :: u in uses ==> SumFor(uses, u.inventoryId) <= inventory[u.inventoryId].stock
    ensures var s := Deduct(inventory, uses, orderId, table, now);
      forall k :: 0 <= k < |s.logs| ==> s.logs[k].stockAfter >= 0
  {
    DeductLogs(inventory, uses, orderId, table, now);
    forall k | 0 <= k < |uses|
      ensures LogFor(inventory, uses, k, orderId, table, now).stockAfter >= 0
    {
      var id := uses[k].inventoryId;
      assert uses[k] in uses;
      SumForPrefix(uses, k + 1, id);
      assert uses[..k + 1][..k] == uses[..k];
      assert SumFor(uses[..k + 1], id) == SumFor(uses[..k], id) + uses[k].amount;
    }
  }

  /** Every ingredient use of a valid menu item with a positive quantity
      takes a positive amount. */
  lemma {:induction false} UsesPositive(menu: map<MenuId, MenuItem>, lines: seq<RequestLine>)
    requires forall id :: id in menu ==> ValidMenuItem(menu[id])
    requires forall k :: 0 <= k < |lines| ==> lines[k].quantity >= 1
    ensures forall k :: 0 <= k < |OrderUses(menu, lines)| ==> OrderUses(menu, lines)[k].amount > 0
  {
    if |lines| > 0 {
      var init := lines[..|lines| - 1];
      UsesPositive(menu, init);
      var l := lines[|lines| - 1];
      if l.menuItemId in menu {
        var us := LineUses(menu[l.menuItemId].ingredients, l.quantity);
        forall k | 0 <= k < |us| ensures us[k].amount > 0 {
          ValidIngredientPositive(menu[l.menuItemId], k);
        }
      }
    }
  }

  /** The writes of an accepted request, field by field. */
  lemma ApplyWrites(w: World, user: UserId, table: string, lines: seq<RequestLine>, now: int)
    requires Admit(w, user, table, lines, now).Success?
    ensures var p := Admit(w, user, table, lines, now).value;
      var s := Deduct(w.inventory, OrderUses(w.menu, lines), |w.orders|, table, now);
      var w' := CreateOrder(w, user, table, lines, now).0;
      && w'.orders == w.orders + [p.order] && w'.inventory == s.inventory && w'.logs == w.logs + s.logs
      && w'.menu == w.menu && w'.settings == w.settings && w'.users == w.users && w'.nextId == w.nextId
    ensures var p := Admit(w, user, table, lines, now).value;
      && CreateOrder(w, user, table, lines, now).0 == Apply(w, p)
      && p.uses == OrderUses(w.menu, lines)
      && p.order.id == |w.orders| && p.order.tableNumber == table && p.order.createdAt == now
  {
    AdmitSuccess(w, user, table, lines, now);
  }

  /** An accepted request's order is numbered by its position and valid. */
  lemma AdmittedValid(w: World, user: UserId, table: string, lines: seq<RequestLine>, now: int)
    requires Admit(w, user, table, lines, now).Success?
    ensures var o := Admit(w, user, table, lines, now).value.order;
      o.id == |w.orders| && ValidOrder(o)
  {
    AdmitSuccess(w, user, table, lines, now);
  }

  /** On success every inventory item's stock drops by exactly its total
      use over all (line, ingredient) pairs and nothing else about it
      changes. */
  lemma StockConservation(w: World, user: UserId, table: string, lines: seq<RequestLine>, now: int)
    requires Admit(w, user, table, lines, now).Success?
    ensures var uses := OrderUses(w.menu, lines);
      var w' := CreateOrder(w, user, table, lines, now).0;
      && w'.inventory.Keys == w.inventory.Keys
      && (forall id :: id in w.inventory ==>
            && w'.inventory[id].stock == w.inventory[id].stock - SumFor(uses, id)
            && w'.inventory[id].name == w.inventory[id].name && w'.inventory[id].unit == w.inventory[id].unit)
  {
    ApplyWrites(w, user, table, lines, now);
    AdmittedStock(w, user, table, lines, now);
    DeductStock(w.inventory, OrderUses(w.menu, lines), |w.orders|, table, now);
  }

  /** Every (line, ingredient) use of an accepted request takes a positive
      amount: the lines' quantities are positive and so are recipe amounts. */
  lemma AdmittedUsesPositive(w: World, user: UserId, table: string, lines: seq<RequestLine>, now: int)
    requires forall id :: id in w.menu ==> ValidMenuItem(w.menu[id])
    requires Admit(w, user, table, lines, now).Success?
    ensures var uses := OrderUses(w.menu, lines);
      forall k :: 0 <= k < |uses| ==> uses[k].amount > 0
  {
    AdmittedOrder(w, user, table, lines, now);
    var o := Admit(w, user, table, lines, now).value.order;
    assert forall k :: 0 <= k < |lines| ==> lines[k].quantity == o.items[k].quantity;
    UsesPositive(w.menu, lines);
  }

  /** Applying a plan whose uses fit the stock appends one log per
      (line, ingredient) use, in order: the log for that use, naming the
      plan's order and table; no log's after-stock is below zero, not even
      between two deductions. */
  lemma LogsWritten(w: World, p: Plan)
    requires Fits(w.inventory, p.uses)
    ensures var o := p.order; var w' := Apply(w, p);
      && |w'.logs| == |w.logs| + |p.uses|
      && (forall k :: 0 <= k < |p.uses| ==>
            && p.uses[k].inventoryId in w.inventory
            && w'.logs[|w.logs| + k] == LogFor(w.inventory, p.uses, k, o.id, o.tableNumber, o.createdAt)
            && w'.logs[|w.logs| + k].stockAfter >= 0)
  {
    var o := p.order;
    var all := Apply(w, p).logs;
    assert all == w.logs + Deduct(w.inventory, p.uses, o.id, o.tableNumber, o.createdAt).logs;
    AppendedLogs(w.inventory, p.uses, o.id, o.tableNumber, o.createdAt, w.logs, all);
    assert |all| == |w.logs| + |p.uses|;
  }

  /** The logs of a deduction whose uses fit the stock, appended to
      earlier logs: one per use, in order, none below zero. */
  lemma AppendedLogs(inventory: map<InvId, InventoryItem>, uses: seq<Use>,
                     orderId: OrderId, table: string, now: int, logs0: seq<InventoryLog>, all: seq<InventoryLog>)
    requires Fits(inventory, uses)
    requires all == logs0 + Deduct(inventory, uses, orderId, table, now).logs
    ensures |all| == |logs0| + |uses|
    ensures forall k :: 0 <= k < |uses| ==>
      && uses[k].inventoryId in inventory
      && all[|logs0| + k] == LogFor(inventory, uses, k, orderId, table, now)
      && all[|logs0| + k].stockAfter >= 0
  {
    var s := Deduct(inventory, uses, orderId, table, now);
    DeductLogs(inventory, uses, orderId, table, now);
    DeductNonNegative(inventory, uses, orderId, table, now);
    forall k | 0 <= k < |uses| ensures uses[k].inventoryId in inventory && all[|logs0| + k] == s.logs[k] {
      assert uses[k] in uses;
    }
  }

  /** The uses of an accepted request on a store with valid menu items
      fit the stock: each names an existing item, takes a positive amount,
      and together they need of no item more than its stock. */
  lemma AdmittedFits(w: World, user: UserId, table: string, lines: seq<RequestLine>, now: int)
    requires forall id :: id in w.menu ==> ValidMenuItem(w.menu[id])
    requires Admit(w, user, table, lines, now).Success?
    ensures Fits(w.inventory, Admit(w, user, table, lines, now).value.uses)
  {
    AdmitSuccess(w, user, table, lines, now);
    AdmittedStock(w, user, table, lines, now);
    AdmittedUsesPositive(w, user, table, lines, now);
  }

  /** Uses that name existing items, take positive amounts and need of no
      item more than its stock. */
  predicate Fits(inventory: map<InvId, InventoryItem>, uses: seq<Use>)
  {
    && (forall u :: u in uses ==> u.inventoryId in inventory)
    && (forall k :: 0 <= k < |uses| ==> uses[k].amount > 0)
    && (forall u :: u in uses ==> SumFor(uses, u.inventoryId) <= inventory[u.inventoryId].stock)
  }

  /** On success every inventory item stays valid: its name is kept and its
      stock, lowered at most to zero, stays non-negative. */
  lemma InventoryStaysValid(w: World, user: UserId, table: string, lines: seq<RequestLine>, now: int)
    requires ValidWorld(w) && Admit(w, user, table, lines, now).Success?
    ensures var w' := CreateOrder(w, user, table, lines, now).0;
      forall id :: id in w'.inventory ==> ValidInventoryItem(w'.inventory[id]) && id < w'.nextId
  {
    var uses := OrderUses(w.menu, lines);
    var w' := CreateOrder(w, user, table, lines, now).0;
    AdmittedStock(w, user, table, lines, now);
    StockConservation(w, user, table, lines, now);
    ApplyWrites(w, user, table, lines, now);
    forall id | id in w'.inventory ensures w'.inventory[id].stock >= 0 {
      if id in UsedIds(uses) {
        var u :| u in uses && u.inventoryId == id;
      } else {
        SumForAbsent(uses, id);
      }
    }
  }

  /** On success the orders stay numbered by position and valid. */
  lemma OrdersStayValid(w: World, user: UserId, table: string, lines: seq<RequestLine>, now: int)
    requires ValidWorld(w) && Admit(w, user, table, lines, now).Success?
    ensures var w' := CreateOrder(w, user, table, lines, now).0;
      forall k :: 0 <= k < |w'.orders| ==> w'.orders[k].id == k && ValidOrder(w'.orders[k])
  {
    ApplyWrites(w, user, table, lines, now);
    AdmittedValid(w, user, table, lines, now);
    var w' := CreateOrder(w, user, table, lines, now).0;
    forall k | 0 <= k < |w'.orders| ensures w'.orders[k].id == k && ValidOrder(w'.orders[k]) {
      if k < |w.orders| {
        assert w'.orders[k] == w.orders[k];
      }
    }
  }

  /** Every request keeps the database valid. */
  lemma CreateOrderKeepsValid(w: World, user: UserId, table: string, lines: seq<RequestLine>, now: int)
    requires ValidWorld(w)
    ensures ValidWorld(CreateOrder(w, user, table, lines, now).0)
  {
    if Admit(w, user, table, lines, now).Success? {
      OrdersStayValid(w, user, table, lines, now);
      InventoryStaysValid(w, user, table, lines, now);
      ApplyWrites(w, user, table, lines, now);
    }
  }

  /** An accepted request appends the announcements of its order, after
      one deduction per (line, ingredient) pair. */
  lemma Announced(w: World, user: UserId, table: string, lines: seq<RequestLine>, now: int)
    requires Admit(w, user, table, lines, now).Success?
    ensures var o := Admit(w, user, table, lines, now).value.order;
      var s := Deduct(w.inventory, OrderUses(w.menu, lines), |w.orders|, table, now);
      var roles := RolesOf(w.settings);
      && CreateOrder(w, user, table, lines, now).0.outbox
         == w.outbox + Announcements(o, s.inventory, s.updated, StationLines(o.items, roles, Kitchen), StationLines(o.items, roles, Bar))
      && |s.updated| == |OrderUses(w.menu, lines)|
  {
    AdmittedOrder(w, user, table, lines, now);
    AdmittedStock(w, user, table, lines, now);
    DeductStock(w.inventory, OrderUses(w.menu, lines), |w.orders|, table, now);
  }

  /** The announcements, in order: the touched inventory items to the admin
      room when there are any; the kitchen's lines to the kitchen when it
      has any; the bar's lines to the bar when it has any; and every line
      with its price, plus the total, to the cashier. */
  lemma AnnouncementsShape(o: Order, inventory: map<InvId, InventoryItem>, updated: seq<InvId>,
                           kitchen: seq<TicketLine>, bar: seq<TicketLine>)
    ensures var sent := Announcements(o, inventory, updated, kitchen, bar);
      var a := if |updated| > 0 then 1 else 0;
      var b := a + (if |kitchen| > 0 then 1 else 0);
      && |sent| == b + (if |bar| > 0 then 1 else 0) + 1
      && (|updated| > 0 ==> sent[0] == Message({AdminRoom}, InventoryUpdated(UpdatedItems(inventory, updated))))
      && (|kitchen| > 0 ==> sent[a] == Message({KitchenRoom}, NewStationOrder(o.id, o.tableNumber, kitchen, o.status, o.createdAt)))
      && (|bar| > 0 ==> sent[b] == Message({BarRoom}, NewStationOrder(o.id, o.tableNumber, bar, o.status, o.createdAt)))
      && sent[|sent| - 1] == Message({CashierRoom},
           NewCashierOrder(o.id, o.tableNumber, PricedLines(o.items), o.totalPrice, o.status, o.createdAt))
  {
  }

  // ---------------------------------------------------------------------
  // The handler on the database
  // ---------------------------------------------------------------------

  /** The first loop: resolves the lines one by one, adding each
      ingredient's use to the requirements as it goes. */
  method ResolveLines(menu: map<MenuId, MenuItem>, inventory: map<InvId, InventoryItem>, lines: seq<RequestLine>)
    returns (res: Result<Resolved, ApiError>, d: Demand)
    ensures res == Resolve(menu, inventory, lines)
    ensures res.Success? ==> d == Aggregate(OrderUses(menu, lines))
  {
    var items: seq<OrderItem> := [];
    var total := 0;
    d := Demand([], map[]);
    var i := 0;
    while i < |lines|
      invariant 0 <= i <= |lines|
      invariant Resolve(menu, inventory, lines[..i]) == Success(Resolved(items, total))
      invariant d == Aggregate(OrderUses(menu, lines[..i]))
    {
      var stop;
      stop, items, total, d := ResolveOne(menu, inventory, lines, i, items, total, d);
      if stop.Some? {
        return Failure(stop.value), d;
      }
      i := i + 1;
    }
    assert lines[..i] == lines;
    res := Success(Resolved(items, total));
  }

  /** One iteration of the first loop: line `i` is looked up, its
      ingredients' uses are added, and it is snapshotted; `stop` is the
      error that ends the request. */
  method ResolveOne(menu: map<MenuId, MenuItem>, inventory: map<InvId, InventoryItem>, lines: seq<RequestLine>,
                    i: nat, items: seq<OrderItem>, total: int, d0: Demand)
    returns (stop: Option<ApiError>, items': seq<OrderItem>, total': int, d: Demand)
    requires i < |lines|
    requires Resolve(menu, inventory, lines[..i]) == Success(Resolved(items, total))
    requires d0 == Aggregate(OrderUses(menu, lines[..i]))
    ensures stop.Some? ==> Resolve(menu, inventory, lines) == Failure(stop.value)
    ensures stop.None? ==> && Resolve(menu, inventory, lines[..i + 1]) == Success(Resolved(items', total'))
                           && d == Aggregate(OrderUses(menu, lines[..i + 1]))
  {
    var l := lines[i];
    items', total' := items, total;
    if l.menuItemId !in menu || !menu[l.menuItemId].isActive {
      ResolveStops(menu, inventory, lines, i);
      return Some(MenuItemNotFound(l.menuItemId)), items', total', d0;
    }
    var m := menu[l.menuItemId];
    var ok;
    ok, d := AddIngredients(inventory, d0, m, l.quantity, OrderUses(menu, lines[..i]));
    if !ok {
      ResolveStops(menu, inventory, lines, i);
      return Some(ServerError), items', total', d;
    }
    ResolveAdvances(menu, inventory, lines, i, Resolved(items, total));
    items' := items + [Snapshot(l, m)];
    total' := total + m.price * l.quantity;
    stop := None;
  }

  /** The inner loop of the first: adds one line's ingredient uses to the
      requirements, failing on the first ingredient whose inventory item
      no longer exists. */
  method AddIngredients(inventory: map<InvId, InventoryItem>, d0: Demand, m: MenuItem, quantity: int, ghost pre: seq<Use>)
    returns (ok: bool, d: Demand)
    requires d0 == Aggregate(pre)
    ensures ok == !Dangling(inventory, m)
    ensures ok ==> d == Aggregate(pre + LineUses(m.ingredients, quantity))
  {
    d := d0;
    var j := 0;
    ghost var done := pre;
    assert done == pre + LineUses(m.ingredients[..0], quantity);
    while j < |m.ingredients|
      invariant 0 <= j <= |m.ingredients|
      invariant done == pre + LineUses(m.ingredients[..j], quantity)
      invariant d == Aggregate(done)
      invariant forall k :: 0 <= k < j ==> m.ingredients[k].inventoryItem in inventory
    {
      var found;
      found, d := AddIngredient(inventory, d, m, quantity, pre, j);
      if !found {
        return false, d;
      }
      j := j + 1;
      done := pre + LineUses(m.ingredients[..j], quantity);
    }
    assert m.ingredients[..j] == m.ingredients;
    assert !Dangling(inventory, m);
    return true, d;
  }

  /** One pass of the inner loop: the ingredient's inventory item must
      still exist, and its use joins the requirements. */
  method AddIngredient(inventory: map<InvId, InventoryItem>, d0: Demand, m: MenuItem, quantity: int,
                       ghost pre: seq<Use>, j: nat)
    returns (found: bool, d: Demand)
    requires j < |m.ingredients| && d0 == Aggregate(pre + LineUses(m.ingredients[..j], quantity))
    ensures found == (m.ingredients[j].inventoryItem in inventory)
    ensures !found ==> Dangling(inventory, m)
    ensures found ==> d == Aggregate(pre + LineUses(m.ingredients[..j + 1], quantity))
  {
    var g := m.ingredients[j];
    if g.inventoryItem !in inventory {
      return false, d0;
    }
    AggregateSnoc(pre, m.ingredients, j, quantity);
    d := AddUse(d0, Use(g.inventoryItem, g.qty * quantity));
    found := true;
  }

  /** Adding one more ingredient's use to the requirements. */
  lemma AggregateSnoc(pre: seq<Use>, ings: seq<Ingredient>, j: nat, quantity: int)
    requires j < |ings|
    ensures Aggregate(pre + LineUses(ings[..j + 1], quantity))
         == AddUse(Aggregate(pre + LineUses(ings[..j], quantity)), Use(ings[j].inventoryItem, ings[j].qty * quantity))
  {
    var u := Use(ings[j].inventoryItem, ings[j].qty * quantity);
    assert ings[..j + 1][..j] == ings[..j];
    assert LineUses(ings[..j + 1], quantity) == LineUses(ings[..j], quantity) + [u];
    var all := pre + LineUses(ings[..j + 1], quantity);
    assert all[..|all| - 1] == pre + LineUses(ings[..j], quantity);
  }

  /** The second loop: the requirements in insertion order, each against
      the item's stock. */
  method CheckStock(inventory: map<InvId, InventoryItem>, d: Demand) returns (short: Option<ApiError>)
    ensures short == FirstShortage(inventory, d, d.keys)
  {
    var k := 0;
    while k < |d.keys|
      invariant 0 <= k <= |d.keys|
      invariant FirstShortage(inventory, d, d.keys[k..]) == FirstShortage(inventory, d, d.keys)
    {
      var id := d.keys[k];
      var needed := if id in d.total then d.total[id] else 0;
      if id !in inventory {
        return Some(InsufficientStock("Unknown", needed, 0));
      }
      if inventory[id].stock < needed {
        var name := if inventory[id].name == "" then "Unknown" else inventory[id].name;
        return Some(InsufficientStock(name, needed, inventory[id].stock));
      }
      assert d.keys[k..][1..] == d.keys[k + 1..];
      k := k + 1;
    }
    return None;
  }

  /** The third loop: one deduction and one log per (line, ingredient)
      pair, skipping missing menu items. */
  method DeductAll(db: Db, lines: seq<RequestLine>, orderId: OrderId, table: string, now: int)
    returns (updated: seq<InvId>)
    modifies db
    ensures var s := Deduct(old(db.inventory), OrderUses(db.menu, lines), orderId, table, now);
      && db.inventory == s.inventory && db.logs == old(db.logs) + s.logs && updated == s.updated
    ensures db.orders == old(db.orders) && db.menu == old(db.menu) && db.settings == old(db.settings)
    ensures db.users == old(db.users) && db.outbox == old(db.outbox) && db.nextId == old(db.nextId)
  {
    ghost var inv0 := db.inventory;
    ghost var logs0 := db.logs;
    updated := [];
    var i := 0;
    while i < |lines|
      invariant 0 <= i <= |lines|
      invariant var s := Deduct(inv0, OrderUses(db.menu, lines[..i]), orderId, table, now);
        db.inventory == s.inventory && db.logs == logs0 + s.logs && updated == s.updated
      invariant db.orders == old(db.orders) && db.menu == old(db.menu) && db.settings == old(db.settings)
      invariant db.users == old(db.users) && db.outbox == old(db.outbox) && db.nextId == old(db.nextId)
    {
      var l := lines[i];
      assert lines[..i + 1][..i] == lines[..i];
      if l.menuItemId in db.menu {
        var ings := db.menu[l.menuItemId].ingredients;
        updated := DeductLine(db, ings, l.quantity, orderId, table, now, inv0, logs0, OrderUses(db.menu, lines[..i]), updated);
        assert OrderUses(db.menu, lines[..i + 1]) == OrderUses(db.menu, lines[..i]) + LineUses(ings, l.quantity);
      } else {
        assert OrderUses(db.menu, lines[..i + 1]) == OrderUses(db.menu, lines[..i]);
      }
      i := i + 1;
    }
    assert lines[..i] == lines;
  }

  /** The inner loop of the third: deducts one line's ingredient uses,
      skipping inventory items that no longer exist. */
  method DeductLine(db: Db, ings: seq<Ingredient>, quantity: int, orderId: OrderId, table: string, now: int,
                    ghost inv0: map<InvId, InventoryItem>, ghost logs0: seq<InventoryLog>, ghost pre: seq<Use>,
                    updated0: seq<InvId>)
    returns (updated: seq<InvId>)
    modifies db
    requires var s := Deduct(inv0, pre, orderId, table, now);
      db.inventory == s.inventory && db.logs == logs0 + s.logs && updated0 == s.updated
    ensures var s := Deduct(inv0, pre + LineUses(ings, quantity), orderId, table, now);
      db.inventory == s.inventory && db.logs == logs0 + s.logs && updated == s.updated
    ensures db.orders == old(db.orders) && db.menu == old(db.menu) && db.settings == old(db.settings)
    ensures db.users == old(db.users) && db.outbox == old(db.outbox) && db.nextId == old(db.nextId)
  {
    updated := updated0;
    var j := 0;
    assert pre + LineUses(ings[..0], quantity) == pre;
    ghost var s := Deduct(inv0, pre, orderId, table, now);
    while j < |ings|
      invariant 0 <= j <= |ings|
      invariant s == Deduct(inv0, pre + LineUses(ings[..j], quantity), orderId, table, now)
      invariant db.inventory == s.inventory && db.logs == logs0 + s.logs && updated == s.updated
      invariant db.orders == old(db.orders) && db.menu == old(db.menu) && db.settings == old(db.settings)
      invariant db.users == old(db.users) && db.outbox == old(db.outbox) && db.nextId == old(db.nextId)
    {
      var g := ings[j];
      DeductSnoc(inv0, pre, ings, j, quantity, orderId, table, now, s);
      updated := ApplyUse(db, Use(g.inventoryItem, g.qty * quantity), orderId, table, now, logs0, s, updated);
      s := DeductUse(s, Use(g.inventoryItem, g.qty * quantity), orderId, table, now);
      j := j + 1;
    }
    assert ings[..j] == ings;
  }

  /** One ingredient use: the item's stock drops and a log is written,
      unless the item no longer exists. */
  method ApplyUse(db: Db, u: Use, orderId: OrderId, table: string, now: int,
                  ghost logs0: seq<InventoryLog>, ghost s: Deduction, updated0: seq<InvId>)
    returns (updated: seq<InvId>)
    modifies db
    requires db.inventory == s.inventory && db.logs == logs0 + s.logs && updated0 == s.updated
    ensures var s' := DeductUse(s, u, orderId, table, now);
      db.inventory == s'.inventory && db.logs == logs0 + s'.logs && updated == s'.updated
    ensures db.orders == old(db.orders) && db.menu == old(db.menu) && db.settings == old(db.settings)
    ensures db.users == old(db.users) && db.outbox == old(db.outbox) && db.nextId == old(db.nextId)
  {
    updated := updated0;
    if u.inventoryId in db.inventory {
      var item := db.inventory[u.inventoryId];
      var after := item.stock - u.amount;
      db.inventory := db.inventory[u.inventoryId := item.(stock := after, lastUpdated := now)];
      updated := updated + [u.inventoryId];
      db.logs := db.logs + [InventoryLog(u.inventoryId, item.name, u.amount, item.stock, after, orderId, table, now)];
    }
  }

  /** Deducting one more ingredient's use. */
  lemma DeductSnoc(inventory: map<InvId, InventoryItem>, pre: seq<Use>, ings: seq<Ingredient>, j: nat, quantity: int,
                   orderId: OrderId, table: string, now: int, s: Deduction)
    requires j < |ings|
    requires s == Deduct(inventory, pre + LineUses(ings[..j], quantity), orderId, table, now)
    ensures Deduct(inventory, pre + LineUses(ings[..j + 1], quantity), orderId, table, now)
         == DeductUse(s, Use(ings[j].inventoryItem, ings[j].qty * quantity), orderId, table, now)
  {
    var u := Use(ings[j].inventoryItem, ings[j].qty * quantity);
    assert ings[..j + 1][..j] == ings[..j];
    assert LineUses(ings[..j + 1], quantity) == LineUses(ings[..j], quantity) + [u];
    var all := pre + LineUses(ings[..j + 1], quantity);
    assert all[..|all| - 1] == pre + LineUses(ings[..j], quantity);
  }

  /** The emits, one after the other: the touched inventory items to the
      admin room, each station's ticket if it has lines, the cashier's
      priced order. */
  method Emit(db: Db, o: Order, updated: seq<InvId>, kitchen: seq<TicketLine>, bar: seq<TicketLine>)
    modifies db
    ensures db.outbox == old(db.outbox) + Announcements(o, db.inventory, updated, kitchen, bar)
    ensures db.orders == old(db.orders) && db.menu == old(db.menu) && db.settings == old(db.settings)
    ensures db.users == old(db.users) && db.inventory == old(db.inventory) && db.logs == old(db.logs)
    ensures db.nextId == old(db.nextId)
  {
    if |updated| > 0 {
      db.outbox := db.outbox + [Message({AdminRoom}, InventoryUpdated(UpdatedItems(db.inventory, updated)))];
    }
    if |kitchen| > 0 {
      db.outbox := db.outbox + [Message({KitchenRoom}, NewStationOrder(o.id, o.tableNumber, kitchen, o.status, o.createdAt))];
    }
    if |bar| > 0 {
      db.outbox := db.outbox + [Message({BarRoom}, NewStationOrder(o.id, o.tableNumber, bar, o.status, o.createdAt))];
    }
    db.outbox := db.outbox + [CashierMessage(o)];
  }

  /** The writes of an accepted request on the database: the order, the
      deductions with their logs, and the announcements. */
  method Accept(db: Db, o: Order, lines: seq<RequestLine>)
    modifies db
    ensures db.State() == Apply(old(db.State()), Plan(o, OrderUses(old(db.menu), lines)))
  {
    db.orders := db.orders + [o];
    var updated := DeductAll(db, lines, o.id, o.tableNumber, o.createdAt);
    var roles := SettingsRoles(db.settings);
    Emit(db, o, updated, StationLines(o.items, roles, Kitchen), StationLines(o.items, roles, Bar));
  }

  /** POST /api/waiter/orders on the database: ends in exactly the state and
      response CreateOrder gives. */
  method PostOrder(db: Db, user: UserId, table: string, lines: seq<RequestLine>, now: int)
    returns (r: Result<Receipt, ApiError>)
    modifies db
    ensures (db.State(), r) == CreateOrder(old(db.State()), user, table, lines, now)
  {
    ghost var w := db.State();
    if table == "" || |lines| == 0 {
      return Failure(BadRequest(RequiredMessage));
    }
    var res, d := ResolveLines(db.menu, db.inventory, lines);
    if res.Failure? {
      return Failure(res.error);
    }
    var short := CheckStock(db.inventory, d);
    if short.Some? {
      return Failure(short.value);
    }
    var o := NewOrder(|db.orders|, table, res.value.items, res.value.totalPrice, user, now);
    if !ValidOrder(o) {
      return Failure(ServerError);
    }
    assert Admit(w, user, table, lines, now) == Success(Plan(o, OrderUses(db.menu, lines)));
    Accept(db, o, lines);
    r := Success(Receipt(o.id, table, ReceiptLines(o.items), o.status));
  }
}
