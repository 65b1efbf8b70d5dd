/**
 * The kitchen and bar station routes (backend/src/routes/kitchen.ts).
 *
 * GET /api/kitchen/orders gives a station its feed: the confirmed orders,
 * newest first, each cut down to the lines routed to the station (no
 * prices), keeping only orders with a line still to prepare.
 * PATCH /api/kitchen/orders/:orderId/items/:itemIndex marks one line of an
 * order prepared and tells the kitchen, the bar and the cashier.
 *
 * Orders are stored oldest first (`Store.World.orders`), so "newest first"
 * is the reverse of storage order.
 */
module KitchenRoutes {
  import opened Common
  import opened OrderModel
  import opened SettingsModel
  import opened Routing
  import opened Realtime
  import opened Store

  /** One entry of a station's feed. */
  datatype TicketOrder = TicketOrder(
    id: OrderId,
    tableNumber: string,
    lines: seq<TicketLine>,
    status: OrderStatus,
    createdAt: int)

  const OrderNotFound: string := "Order not found."
  const ItemNotFound: string := "Item not found."
  const MarkedMessage: string := "Item marked as prepared."

  // ---------------------------------------------------------------------
  // GET /orders: the station feed
  // ---------------------------------------------------------------------

  /** An order as a station sees it: only its lines for `dept`. */
  function TicketOf(o: Order, roles: CategoryRoles, dept: Department): TicketOrder
  {
    TicketOrder(o.id, o.tableNumber, StationLines(o.items, roles, dept), o.status, o.createdAt)
  }

  /** Every order as the station sees it, in storage order. */
  function Tickets(orders: seq<Order>, roles: CategoryRoles, dept: Department): (ts: seq<TicketOrder>)
    ensures |ts| == |orders|
    ensures forall k :: 0 <= k < |orders| ==> ts[k] == TicketOf(orders[k], roles, dept)
  {
    if |orders| == 0 then []
    else Tickets(orders[..|orders| - 1], roles, dept) + [TicketOf(orders[|orders| - 1], roles, dept)]
  }

  /** Some line of the ticket is still to prepare. */
  predicate HasPending(lines: seq<TicketLine>)
  {
    exists k :: 0 <= k < |lines| && !lines[k].prepared
  }

  /** A ticket the feed shows: its order is confirmed and has work left. */
  predicate Shown(t: TicketOrder)
  {
    t.status == Confirmed && HasPending(t.lines)
  }

  /** The shown tickets, newest (last stored) first. */
  function Select(ts: seq<TicketOrder>): seq<TicketOrder>
  {
    if |ts| == 0 then []
    else
      var t := ts[|ts| - 1];
      (if Shown(t) then [t] else []) + Select(ts[..|ts| - 1])
  }

  /** The feed of a station. */
  function Feed(orders: seq<Order>, roles: CategoryRoles, dept: Department): seq<TicketOrder>
  {
    Select(Tickets(orders, roles, dept))
  }

  lemma {:induction false} SelectSound(ts: seq<TicketOrder>)
    ensures forall t :: t in Select(ts) ==> t in ts && Shown(t)
  {
    if |ts| > 0 {
      SelectSound(ts[..|ts| - 1]);
      assert forall t :: t in ts[..|ts| - 1] ==> t in ts;
    }
  }

  lemma {:induction false} SelectComplete(ts: seq<TicketOrder>, k: nat)
    requires k < |ts| && Shown(ts[k])
    ensures ts[k] in Select(ts)
  {
    var n := |ts| - 1;
    if k < n {
      SelectComplete(ts[..n], k);
    }
  }

  /** When every ticket carries its own position as id, the selection's ids
      strictly decrease: newest first, each order at most once. */
  lemma {:induction false} SelectNewestFirst(ts: seq<TicketOrder>)
    requires forall k :: 0 <= k < |ts| ==> ts[k].id == k
    ensures forall t :: t in Select(ts) ==> t.id < |ts|
    ensures forall a, b :: 0 <= a < b < |Select(ts)| ==> Select(ts)[a].id > Select(ts)[b].id
  {
    if |ts| > 0 {
      var n := |ts| - 1;
      var init := ts[..n];
      SelectNewestFirst(init);
      var head := if Shown(ts[n]) then [ts[n]] else [];
      assert Select(ts) == head + Select(init);
      forall t | t in Select(ts) ensures t.id < |ts| {
        if t !in head {
          assert t in Select(init);
        }
      }
    }
  }

  /** The feed shows exactly the confirmed orders that still have a line to
      prepare at the station, each as the station sees it, newest first. */
  lemma FeedExact(w: World, dept: Department)
    requires ValidWorld(w)
    ensures var feed := Feed(w.orders, RolesOf(w.settings), dept);
      && (forall t :: t in feed ==>
            t.id < |w.orders| && t == TicketOf(w.orders[t.id], RolesOf(w.settings), dept) && Shown(t))
      && (forall a, b :: 0 <= a < b < |feed| ==> feed[a].id > feed[b].id)
  {
    var ts := Tickets(w.orders, RolesOf(w.settings), dept);
    SelectSound(ts);
    SelectNewestFirst(ts);
    forall t | t in Select(ts) ensures t == TicketOf(w.orders[t.id], RolesOf(w.settings), dept) {
      var k :| 0 <= k < |ts| && ts[k] == t;
    }
  }

  /** Every confirmed order with a line still to prepare at the station is
      in the station's feed. */
  lemma FeedComplete(w: World, dept: Department, k: nat)
    requires k < |w.orders| && w.orders[k].status == Confirmed
    requires HasPending(StationLines(w.orders[k].items, RolesOf(w.settings), dept))
    ensures TicketOf(w.orders[k], RolesOf(w.settings), dept) in Feed(w.orders, RolesOf(w.settings), dept)
  {
    SelectComplete(Tickets(w.orders, RolesOf(w.settings), dept), k);
  }

  /** GET /api/kitchen/orders for a kitchen or bar user. */
  method GetStationOrders(db: Db, dept: Department) returns (feed: seq<TicketOrder>)
    ensures feed == Feed(db.orders, RolesOf(db.settings), dept)
  {
    var roles := SettingsRoles(db.settings);
    feed := Feed(db.orders, roles, dept);
  }

  // ---------------------------------------------------------------------
  // PATCH /orders/:orderId/items/:itemIndex
  // ---------------------------------------------------------------------

  /** The order with line `idx` marked prepared. */
  function Prepared(o: Order, idx: nat): (o': Order)
    requires idx < |o.items|
    ensures |o'.items| == |o.items| && o'.items[idx].prepared
    ensures forall k :: 0 <= k < |o.items| && k != idx ==> o'.items[k] == o.items[k]
    ensures o'.items[idx] == o.items[idx].(prepared := true)
    ensures o' == o.(items := o'.items)
  {
    o.(items := o.items[idx := o.items[idx].(prepared := true)])
  }

  /** The request as a function of the World. The index is parsed with
      `parseInt`; an index that is not a number passes the bounds check
      (every comparison with NaN is false) and the handler then fails on
      the missing line: a 500. */
  function MarkPrepared(w: World, orderId: OrderId, itemIndex: string): (World, Result<string, ApiError>)
  {
    if orderId >= |w.orders| then (w, Failure(NotFound(OrderNotFound)))
    else
      var o := w.orders[orderId];
      match ParseInt(itemIndex)
      case None => (w, Failure(ServerError))
      case Some(idx) =>
        if idx < 0 || idx >= |o.items| then (w, Failure(NotFound(ItemNotFound)))
        else
          var sent := Message({KitchenRoom, BarRoom, CashierRoom}, ItemPrepared(orderId, idx));
          (w.(orders := w.orders[orderId := Prepared(o, idx)], outbox := w.outbox + [sent]), Success(MarkedMessage))
  }

  /** The request fails, changing nothing, exactly when the order is
      missing, the index is not a number, or it is out of range; the
      status is 404 for a missing order or line and 500 for a non-number. */
  lemma MarkPreparedErrors(w: World, orderId: OrderId, itemIndex: string)
    ensures var (w', r) := MarkPrepared(w, orderId, itemIndex);
      var idx := ParseInt(itemIndex);
      && (r.Failure? <==> orderId >= |w.orders| || idx.None? || idx.value < 0 || idx.value >= |w.orders[orderId].items|)
      && (r.Failure? ==> w' == w)
      && (r.Failure? && Status(r.error) == 500 <==> orderId < |w.orders| && idx.None?)
  {
  }

  /** On success exactly one line changes, to prepared; every other line
      and order and the rest of the database stay as they were, and the
      kitchen, the bar and the cashier are told which line it was. */
  lemma MarkPreparedEffect(w: World, orderId: OrderId, itemIndex: string)
    requires MarkPrepared(w, orderId, itemIndex).1.Success?
    ensures var (w', _) := MarkPrepared(w, orderId, itemIndex);
      var idx := ParseInt(itemIndex).value;
      && |w'.orders| == |w.orders|
      && (forall k :: 0 <= k < |w.orders| && k != orderId ==> w'.orders[k] == w.orders[k])
      && 0 <= idx < |w.orders[orderId].items|
      && w'.orders[orderId].items[idx].prepared
      && (forall k :: 0 <= k < |w.orders[orderId].items| && k != idx ==>
            w'.orders[orderId].items[k] == w.orders[orderId].items[k])
      && w'.orders[orderId].items[idx] == w.orders[orderId].items[idx].(prepared := true)
      && |w'.orders[orderId].items| == |w.orders[orderId].items|
      && w'.orders[orderId] == w.orders[orderId].(items := w'.orders[orderId].items)
      && w'.menu == w.menu && w'.inventory == w.inventory && w'.logs == w.logs && w'.users == w.users
      && w'.settings == w.settings && w'.nextId == w.nextId
      && w'.outbox == w.outbox + [Message({KitchenRoom, BarRoom, CashierRoom}, ItemPrepared(orderId, idx))]
  {
  }

  /** Marking the same line twice leaves the orders as marking it once. */
  lemma MarkPreparedIdempotent(w: World, orderId: OrderId, itemIndex: string)
    ensures var w1 := MarkPrepared(w, orderId, itemIndex).0;
      MarkPrepared(w1, orderId, itemIndex).0.orders == w1.orders
  {
    var w1 := MarkPrepared(w, orderId, itemIndex).0;
    if MarkPrepared(w, orderId, itemIndex).1.Success? {
      var idx := ParseInt(itemIndex).value;
      var o1 := w1.orders[orderId];
      assert o1.items[idx].prepared;
      assert Prepared(o1, idx).items == o1.items;
    }
  }

  /** Marking a line keeps the database valid. */
  lemma MarkPreparedKeepsValid(w: World, orderId: OrderId, itemIndex: string)
    requires ValidWorld(w)
    ensures ValidWorld(MarkPrepared(w, orderId, itemIndex).0)
  {
    var (w', r) := MarkPrepared(w, orderId, itemIndex);
    if r.Success? {
      var idx := ParseInt(itemIndex).value;
      var o := w.orders[orderId];
      assert ValidOrderItem(o.items[idx]);
      assert ValidOrder(w'.orders[orderId]);
    }
  }

  /** PATCH /api/kitchen/orders/:orderId/items/:itemIndex on the database. */
  method MarkItemPrepared(db: Db, orderId: OrderId, itemIndex: string) returns (r: Result<string, ApiError>)
    modifies db
    ensures (db.State(), r) == MarkPrepared(old(db.State()), orderId, itemIndex)
  {
    var idx := ParseInt(itemIndex);
    if orderId >= |db.orders| {
      return Failure(NotFound(OrderNotFound));
    }
    var o := db.orders[orderId];
    if idx.Some? && (idx.value < 0 || idx.value >= |o.items|) {
      return Failure(NotFound(ItemNotFound));
    }
    if idx.None? {
      return Failure(ServerError);
    }
    var i := idx.value;
    db.orders := db.orders[orderId := o.(items := o.items[i := o.items[i].(prepared := true)])];
    db.outbox := db.outbox + [Message({KitchenRoom, BarRoom, CashierRoom}, ItemPrepared(orderId, i))];
    r := Success(MarkedMessage);
  }
}
