/**
 * The cashier's screen (frontend/src/pages/cashier/CashierDashboard.tsx).
 *
 * The screen lists the orders, puts each new order from the live feed on
 * top, toggles an order's payment through the server and replaces the
 * order by the server's answer, narrows the list to one status, and shows
 * the revenue taken and the amount still to collect. Each line shows its
 * subtotal.
 *
 * Amounts are integer cents.
 */
module CashierDashboard {
  import opened Common
  import opened OrderModel
  import opened Realtime
  import WaiterRoutes

  /** An order on the cashier's screen. */
  datatype TillOrder = TillOrder(id: string, tableNumber: string, lines: seq<PricedLine>, totalPrice: int,
                                 status: string, createdAt: int, paidAt: Option<int>)

  const PaidStatus: string := "paid"
  const ConfirmedStatus: string := "confirmed"

  /** The status tabs: every order, or one status. */
  datatype View = AllOrders | ConfirmedOnly | PaidOnly

  // ---------------------------------------------------------------------
  // new-order and togglePay
  // ---------------------------------------------------------------------

  /** A new order goes on top. */
  function NewOrder(orders: seq<TillOrder>, o: TillOrder): (r: seq<TillOrder>)
    ensures |r| == |orders| + 1 && r[0] == o && r[1..] == orders
  {
    [o] + orders
  }

  /** Every order with the id replaced by the server's answer. */
  function Replaced(orders: seq<TillOrder>, id: string, data: TillOrder): (r: seq<TillOrder>)
    ensures |r| == |orders|
    ensures forall k :: 0 <= k < |orders| ==> r[k] == (if orders[k].id == id then data else orders[k])
  {
    if |orders| == 0 then [] else [if orders[0].id == id then data else orders[0]] + Replaced(orders[1..], id, data)
  }

  /** `togglePay`: the list after the server answered the request. */
  function TogglePay(orders: seq<TillOrder>, id: string, answer: Result<TillOrder, string>): seq<TillOrder>
  {
    match answer
    case Success(data) => Replaced(orders, id, data)
    case Failure(_) => orders
  }

  /** A failed request changes nothing; an answer replaces exactly the
      orders with that id, and the same answer twice leaves the list as
      once. */
  lemma TogglePayRules(orders: seq<TillOrder>, id: string, data: TillOrder)
    ensures TogglePay(orders, id, Failure("")) == orders
    ensures var r := TogglePay(orders, id, Success(data));
      && (forall k :: 0 <= k < |orders| && orders[k].id != id ==> r[k] == orders[k])
      && (forall k :: 0 <= k < |orders| && orders[k].id == id ==> r[k] == data)
      && (data.id == id ==> TogglePay(r, id, Success(data)) == r)
  {
  }

  // ---------------------------------------------------------------------
  // The status filter
  // ---------------------------------------------------------------------

  function WithStatus(status: string): TillOrder -> bool
  {
    (o: TillOrder) => o.status == status
  }

  /** `filteredOrders`. */
  function Filtered(orders: seq<TillOrder>, view: View): seq<TillOrder>
  {
    match view
    case AllOrders => orders
    case ConfirmedOnly => Filter(orders, WithStatus(ConfirmedStatus))
    case PaidOnly => Filter(orders, WithStatus(PaidStatus))
  }

  /** "All" keeps the list; a status tab keeps exactly the orders with
      that status, in their order on screen. */
  lemma FilteredRules(orders: seq<TillOrder>, x: TillOrder)
    ensures Filtered(orders, AllOrders) == orders
    ensures x in Filtered(orders, ConfirmedOnly) <==> x in orders && x.status == ConfirmedStatus
    ensures x in Filtered(orders, PaidOnly) <==> x in orders && x.status == PaidStatus
    ensures KeptAt(orders, Filtered(orders, ConfirmedOnly), WithStatus(ConfirmedStatus),
                   FilterPositions(orders, WithStatus(ConfirmedStatus)))
    ensures KeptAt(orders, Filtered(orders, PaidOnly), WithStatus(PaidStatus),
                   FilterPositions(orders, WithStatus(PaidStatus)))
  {
  }

  // ---------------------------------------------------------------------
  // totalRevenue and pendingTotal
  // ---------------------------------------------------------------------

  /** `reduce((sum, o) => sum + o.totalPrice, 0)`. */
  function SumTotals(orders: seq<TillOrder>): int
  {
    if |orders| == 0 then 0 else orders[0].totalPrice + SumTotals(orders[1..])
  }

  /** The revenue taken: the paid orders' totals. */
  function TotalRevenue(orders: seq<TillOrder>): int
  {
    SumTotals(Filter(orders, WithStatus(PaidStatus)))
  }

  /** The amount still to collect: the confirmed orders' totals. */
  function PendingTotal(orders: seq<TillOrder>): int
  {
    SumTotals(Filter(orders, WithStatus(ConfirmedStatus)))
  }

  /** The first order counts towards a status's sum exactly when it has
      that status. */
  lemma SumFilterStep(orders: seq<TillOrder>, status: string)
    requires |orders| > 0
    ensures SumTotals(Filter(orders, WithStatus(status)))
         == (if orders[0].status == status then orders[0].totalPrice else 0) + SumTotals(Filter(orders[1..], WithStatus(status)))
  {
    var rest := Filter(orders[1..], WithStatus(status));
    var r := Filter(orders, WithStatus(status));
    if orders[0].status == status {
      assert r == [orders[0]] + rest;
      assert r[1..] == rest;
    } else {
      assert r == rest;
    }
  }

  lemma StatusesDiffer()
    ensures PaidStatus != ConfirmedStatus
  {
    assert |PaidStatus| != |ConfirmedStatus|;
  }

  /** When every order is confirmed or paid, the revenue and the amount to
      collect together are the sum over all orders. */
  lemma {:induction false} RevenueSplit(orders: seq<TillOrder>)
    requires forall o :: o in orders ==> o.status == PaidStatus || o.status == ConfirmedStatus
    ensures TotalRevenue(orders) + PendingTotal(orders) == SumTotals(orders)
  {
    if |orders| > 0 {
      assert orders[0] in orders;
      forall o | o in orders[1..] ensures o.status == PaidStatus || o.status == ConfirmedStatus {
        assert o in orders;
      }
      RevenueSplit(orders[1..]);
      SumFilterStep(orders, PaidStatus);
      SumFilterStep(orders, ConfirmedStatus);
      StatusesDiffer();
    }
  }

  /** Paying a confirmed order moves its total from the amount to collect
      to the revenue. */
  lemma PayMovesTotal(orders: seq<TillOrder>, id: string, data: TillOrder)
    requires forall k :: 0 <= k < |orders| ==> (orders[k].id == id <==> k == 0)
    requires |orders| > 0 && orders[0].status == ConfirmedStatus
    requires data.status == PaidStatus && data.totalPrice == orders[0].totalPrice
    ensures var r := TogglePay(orders, id, Success(data));
      && TotalRevenue(r) == TotalRevenue(orders) + orders[0].totalPrice
      && PendingTotal(r) == PendingTotal(orders) - orders[0].totalPrice
  {
    var r := TogglePay(orders, id, Success(data));
    assert r[0] == data;
    assert r[1..] == orders[1..];
    StatusesDiffer();
    SumFilterStep(r, PaidStatus);
    SumFilterStep(r, ConfirmedStatus);
    SumFilterStep(orders, PaidStatus);
    SumFilterStep(orders, ConfirmedStatus);
  }

  // ---------------------------------------------------------------------
  // Line subtotals
  // ---------------------------------------------------------------------

  /** A line's subtotal: its unit price times its quantity. */
  function Subtotal(l: PricedLine): int
  {
    l.price * l.quantity
  }

  function SubtotalsSum(lines: seq<PricedLine>): int
  {
    if |lines| == 0 then 0 else SubtotalsSum(lines[..|lines| - 1]) + Subtotal(lines[|lines| - 1])
  }

  /** The subtotals the cashier sees for an order's lines add up to the
      total the server computed from the same lines. */
  lemma {:induction false} SubtotalsMatchTotal(items: seq<OrderItem>)
    ensures SubtotalsSum(WaiterRoutes.PricedLines(items)) == LinesTotal(items)
  {
    if |items| > 0 {
      var n := |items| - 1;
      SubtotalsMatchTotal(items[..n]);
      var ps := WaiterRoutes.PricedLines(items);
      assert ps[..n] == WaiterRoutes.PricedLines(items[..n]);
      assert Subtotal(ps[n]) == items[n].price * items[n].quantity;
    }
  }

  /** Lines that pass the order-line validators have no negative subtotal. */
  lemma SubtotalNonNegative(i: OrderItem)
    requires ValidOrderItem(i)
    ensures Subtotal(PricedLine(i.name, i.quantity, i.price)) >= 0
  {
  }
}
