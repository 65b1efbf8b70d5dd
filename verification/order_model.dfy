/**
 * The Order document (backend/src/models/Order.ts): an order line keeps a
 * snapshot of the menu item it was created from, and the order keeps its
 * table, lines, total, status and payment time. The Mongoose schema's
 * validators become the predicates ValidOrderItem and ValidOrder; its
 * defaults become the constructor functions NewOrderItem and NewOrder.
 * Prices are integers in cents.
 */
module OrderModel {
  import opened Common

  datatype OrderStatus = Confirmed | Paid

  datatype OrderItem = OrderItem(
    menuItem: MenuId,
    name: string,
    quantity: int,
    price: int,
    category: string,
    prepared: bool)

  datatype Order = Order(
    id: OrderId,
    tableNumber: string,
    items: seq<OrderItem>,
    totalPrice: int,
    status: OrderStatus,
    createdBy: UserId,
    createdAt: int,
    paidAt: Option<int>)

  /** The order-line validators: name required, quantity at least 1, price at least 0. */
  predicate ValidOrderItem(i: OrderItem)
  {
    i.name != "" && i.quantity >= 1 && i.price >= 0
  }

  /** The order validators: table required, at least one line, every line
      valid, total at least 0. */
  predicate ValidOrder(o: Order)
  {
    && o.tableNumber != ""
    && |o.items| > 0
    && (forall k :: 0 <= k < |o.items| ==> ValidOrderItem(o.items[k]))
    && o.totalPrice >= 0
  }

  /** A new order line: `prepared` takes its schema default, false. */
  function NewOrderItem(menuItem: MenuId, name: string, quantity: int, price: int, category: string): (i: OrderItem)
    ensures !i.prepared
    ensures i.menuItem == menuItem && i.name == name && i.quantity == quantity
    ensures i.price == price && i.category == category
  {
    OrderItem(menuItem, name, quantity, price, category, false)
  }

  /** A new order: the status takes its schema default, confirmed, and no
      payment time is set. */
  function NewOrder(id: OrderId, tableNumber: string, items: seq<OrderItem>, totalPrice: int,
                    createdBy: UserId, now: int): (o: Order)
    ensures o.status == Confirmed && o.paidAt == None
    ensures o.id == id && o.tableNumber == tableNumber && o.items == items
    ensures o.totalPrice == totalPrice && o.createdBy == createdBy && o.createdAt == now
  {
    Order(id, tableNumber, items, totalPrice, Confirmed, createdBy, now, None)
  }

  /** Sum of price times quantity over the lines. */
  function LinesTotal(items: seq<OrderItem>): int
  {
    if |items| == 0 then 0
    else LinesTotal(items[..|items| - 1]) + items[|items| - 1].price * items[|items| - 1].quantity
  }

  /** Lines that pass the validators can only add up to a non-negative total,
      so the total-price validator never rejects an order whose total is
      computed from its lines. */
  lemma {:induction false} LinesTotalNonNegative(items: seq<OrderItem>)
    requires forall k :: 0 <= k < |items| ==> ValidOrderItem(items[k])
    ensures LinesTotal(items) >= 0
  {
    if |items| > 0 {
      LinesTotalNonNegative(items[..|items| - 1]);
      var last := items[|items| - 1];
      assert ValidOrderItem(last);
      assert last.price * last.quantity >= 0;
    }
  }

  /** A freshly created order is valid exactly when its table is set, it has
      lines, and every line is valid; its total never needs checking when
      it is the lines' total. */
  lemma NewOrderValid(id: OrderId, tableNumber: string, items: seq<OrderItem>, createdBy: UserId, now: int)
    ensures ValidOrder(NewOrder(id, tableNumber, items, LinesTotal(items), createdBy, now))
        <==> (tableNumber != "" && |items| > 0 && forall k :: 0 <= k < |items| ==> ValidOrderItem(items[k]))
  {
    if forall k :: 0 <= k < |items| ==> ValidOrderItem(items[k]) {
      LinesTotalNonNegative(items);
    }
  }
}
