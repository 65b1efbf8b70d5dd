/**
 * The cashier routes (backend/src/routes/cashier.ts).
 *
 * GET /api/cashier/orders lists every order, paid or not, newest first.
 * PATCH /api/cashier/orders/:id/pay toggles an order between confirmed and
 * paid, tells the kitchen, and, when the payment leaves no confirmed order
 * at the table, announces that the table is free.
 */
module CashierRoutes {
  import opened Common
  import opened OrderModel
  import opened UserModel
  import opened Realtime
  import opened Store

  const OrderNotFound: string := "Order not found."

  // ---------------------------------------------------------------------
  // GET /orders
  // ---------------------------------------------------------------------

  /** The orders, newest (last stored) first. */
  function Newest(orders: seq<Order>): (r: seq<Order>)
    ensures |r| == |orders|
    ensures forall k :: 0 <= k < |orders| ==> r[k] == orders[|orders| - 1 - k]
  {
    if |orders| == 0 then [] else [orders[|orders| - 1]] + Newest(orders[..|orders| - 1])
  }

  /** With orders numbered by position, the list's ids strictly decrease and
      every order appears. */
  lemma NewestOrdered(w: World)
    requires ValidWorld(w)
    ensures var r := Newest(w.orders);
      && (forall a, b :: 0 <= a < b < |r| ==> r[a].id > r[b].id)
      && (forall k :: 0 <= k < |w.orders| ==> w.orders[k] in r)
  {
    var r := Newest(w.orders);
    forall k | 0 <= k < |w.orders| ensures w.orders[k] in r {
      assert r[|w.orders| - 1 - k] == w.orders[k];
    }
  }

  /** GET /api/cashier/orders. */
  method ListOrders(db: Db) returns (r: seq<Order>)
    ensures r == Newest(db.orders)
  {
    r := Newest(db.orders);
  }

  // ---------------------------------------------------------------------
  // PATCH /orders/:id/pay
  // ---------------------------------------------------------------------

  /** The number of confirmed orders at a table: `Order.countDocuments`. */
  function ConfirmedAt(orders: seq<Order>, table: string): (n: nat)
    ensures n <= |orders|
    ensures n == 0 <==> forall k :: 0 <= k < |orders| ==> !(orders[k].tableNumber == table && orders[k].status == Confirmed)
  {
    if |orders| == 0 then 0
    else
      var o := orders[|orders| - 1];
      ConfirmedAt(orders[..|orders| - 1], table) + (if o.tableNumber == table && o.status == Confirmed then 1 else 0)
  }

  /** The order toggled: paid goes back to confirmed and loses its payment
      time; anything else becomes paid at `now`. */
  function Toggled(o: Order, now: int): (o': Order)
    ensures o'.status == (if o.status == Paid then Confirmed else Paid)
    ensures o'.paidAt == (if o.status == Paid then None else Some(now))
    ensures o' == o.(status := o'.status, paidAt := o'.paidAt)
  {
    if o.status == Paid then o.(status := Confirmed, paidAt := None) else o.(status := Paid, paidAt := Some(now))
  }

  /** The request as a function of the World; the response is the toggled
      order. */
  function TogglePay(w: World, id: OrderId, now: int): (World, Result<Order, ApiError>)
  {
    if id >= |w.orders| then (w, Failure(NotFound(OrderNotFound)))
    else
      var o := Toggled(w.orders[id], now);
      var orders := w.orders[id := o];
      var updated := Message({KitchenRoom}, OrderUpdated(id, o.status));
      var freed := if o.status == Paid && ConfirmedAt(orders, o.tableNumber) == 0
                   then [Message({WaiterRoom}, TableFreed(o.tableNumber))] else [];
      (w.(orders := orders, outbox := w.outbox + [updated] + freed), Success(o))
  }

  /** A missing order is a 404 and changes nothing. */
  lemma TogglePayMissing(w: World, id: OrderId, now: int)
    ensures TogglePay(w, id, now).1.Failure? <==> id >= |w.orders|
    ensures id >= |w.orders| ==> TogglePay(w, id, now) == (w, Failure(NotFound(OrderNotFound)))
  {
  }

  /** A paid order is marked paid exactly when it was not, only that
      order's status and payment time change (set to `now` when it becomes
      paid, cleared otherwise), and nothing else in the store changes but
      the outbox. The kitchen hears of the new status first; at most one
      more message follows, announcing the table free, and it is sent
      exactly when the order became paid and no order at its table is
      still confirmed. */
  lemma TogglePayEffect(w: World, id: OrderId, now: int)
    requires id < |w.orders|
    ensures var (w', r) := TogglePay(w, id, now);
      var o := w.orders[id];
      var table := o.tableNumber;
      && r.Success? && r.value == w'.orders[id]
      && |w'.orders| == |w.orders|
      && (forall k :: 0 <= k < |w.orders| && k != id ==> w'.orders[k] == w.orders[k])
      && (w'.orders[id].status == Paid <==> o.status != Paid)
      && w'.orders[id].paidAt == (if o.status == Paid then None else Some(now))
      && w'.orders[id] == o.(status := w'.orders[id].status, paidAt := w'.orders[id].paidAt)
      && w'.menu == w.menu && w'.inventory == w.inventory && w'.logs == w.logs && w'.users == w.users
      && w'.settings == w.settings && w'.nextId == w.nextId
      && |w.outbox| < |w'.outbox| <= |w.outbox| + 2 && w'.outbox[..|w.outbox|] == w.outbox
      && w'.outbox[|w.outbox|] == Message({KitchenRoom}, OrderUpdated(id, w'.orders[id].status))
      && (|w'.outbox| == |w.outbox| + 2 ==> w'.outbox[|w.outbox| + 1] == Message({WaiterRoom}, TableFreed(table)))
      && ((exists m :: m in w'.outbox[|w.outbox|..] && m.event.TableFreed?)
          <==> o.status != Paid && forall k :: 0 <= k < |w'.orders| ==>
                 !(w'.orders[k].tableNumber == table && w'.orders[k].status == Confirmed))
  {
    var (w', r) := TogglePay(w, id, now);
    var o := Toggled(w.orders[id], now);
    var sent := w'.outbox[|w.outbox|..];
    if o.status == Paid && ConfirmedAt(w'.orders, o.tableNumber) == 0 {
      assert sent[1] in sent && sent[1].event.TableFreed?;
    } else {
      assert sent == [Message({KitchenRoom}, OrderUpdated(id, o.status))];
    }
  }

  /** The payment time is set exactly on paid orders. */
  predicate PaidConsistent(o: Order)
  {
    o.status == Paid <==> o.paidAt.Some?
  }

  /** Toggling keeps every order's payment time consistent with its status;
      toggling twice restores the status and the presence of the payment
      time, and gives back a confirmed order
      unchanged. */
  lemma {:induction false} TogglePayTwice(w: World, id: OrderId, now: int, later: int)
    requires id < |w.orders| && PaidConsistent(w.orders[id])
    ensures PaidConsistent(TogglePay(w, id, now).0.orders[id])
    ensures var o := w.orders[id];
      var o2 := TogglePay(TogglePay(w, id, now).0, id, later).0.orders[id];
      o2.status == o.status && o2.paidAt.Some? == o.paidAt.Some?
    ensures w.orders[id].status == Confirmed ==>
      TogglePay(TogglePay(w, id, now).0, id, later).0.orders == w.orders
  {
    var w1 := TogglePay(w, id, now).0;
    var w2 := TogglePay(w1, id, later).0;
    assert w2.orders[id] == Toggled(Toggled(w.orders[id], now), later);
    if w.orders[id].status == Confirmed {
      assert w2.orders[id] == w.orders[id];
    }
  }

  /** Toggling keeps the database valid. */
  lemma TogglePayKeepsValid(w: World, id: OrderId, now: int)
    requires ValidWorld(w)
    ensures ValidWorld(TogglePay(w, id, now).0)
  {
    var w' := TogglePay(w, id, now).0;
    if id < |w.orders| {
      assert ValidOrder(w.orders[id]);
      assert ValidOrder(w'.orders[id]);
    }
  }

  /** Nobody hears that a table is free: the message goes to the waiter
      room, which no role joins. */
  lemma TableFreedUnheard(w: World, id: OrderId, now: int, role: UserRole)
    ensures forall m :: m in TogglePay(w, id, now).0.outbox[|w.outbox|..] && m.event.TableFreed? ==> !Receives(role, m)
  {
    var w' := TogglePay(w, id, now).0;
    forall m | m in w'.outbox[|w.outbox|..] && m.event.TableFreed? ensures !Receives(role, m) {
      RoomJoinRule(role);
    }
  }

  /** PATCH /api/cashier/orders/:id/pay on the database. */
  method PayOrder(db: Db, id: OrderId, now: int) returns (r: Result<Order, ApiError>)
    modifies db
    ensures (db.State(), r) == TogglePay(old(db.State()), id, now)
  {
    if id >= |db.orders| {
      return Failure(NotFound(OrderNotFound));
    }
    var o := db.orders[id];
    if o.status == Paid {
      o := o.(status := Confirmed, paidAt := None);
    } else {
      o := o.(status := Paid, paidAt := Some(now));
    }
    db.orders := db.orders[id := o];
    db.outbox := db.outbox + [Message({KitchenRoom}, OrderUpdated(id, o.status))];
    ghost var sent := db.outbox;
    if o.status == Paid {
      var remaining := ConfirmedAt(db.orders, o.tableNumber);
      if remaining == 0 {
        db.outbox := db.outbox + [Message({WaiterRoom}, TableFreed(o.tableNumber))];
      }
    }
    assert db.outbox == sent || db.outbox == sent + [Message({WaiterRoom}, TableFreed(o.tableNumber))];
    assert sent + [] == sent;
    r := Success(o);
  }
}
