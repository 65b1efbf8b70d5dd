/**
 * The kitchen and bar display (frontend/src/pages/kitchen/KitchenDashboard.tsx).
 *
 * The screen keeps the station's open orders and updates them from three
 * live events: a new order is put on top; a prepared line is ticked off and
 * orders with nothing left to prepare leave the screen; a status change is
 * applied and orders that are no longer confirmed leave the screen. Tapping
 * a line that is still to prepare asks the server to mark it and, when the
 * server agrees, applies the same update as the event. Each order shows
 * how long ago it was placed.
 */
module KitchenDashboard {
  import opened Common

  /** A line as the station sees it; `index` is its position in the order. */
  datatype FeedLine = FeedLine(index: int, name: string, quantity: int, prepared: bool)

  /** An order on the station's screen. */
  datatype FeedOrder = FeedOrder(id: string, tableNumber: string, items: seq<FeedLine>, status: string, createdAt: int)

  const ConfirmedStatus: string := "confirmed"

  /** Some line of the order is still to prepare. */
  predicate HasUnprepared(o: FeedOrder)
  {
    exists k :: 0 <= k < |o.items| && !o.items[k].prepared
  }

  /** The order is still confirmed. */
  predicate IsConfirmed(o: FeedOrder)
  {
    o.status == ConfirmedStatus
  }

  // ---------------------------------------------------------------------
  // new-order
  // ---------------------------------------------------------------------

  /** A new order goes on top. */
  function NewOrder(orders: seq<FeedOrder>, o: FeedOrder): (r: seq<FeedOrder>)
    ensures |r| == |orders| + 1 && r[0] == o && r[1..] == orders
  {
    [o] + orders
  }

  // ---------------------------------------------------------------------
  // item-prepared
  // ---------------------------------------------------------------------

  /** The lines with the line whose index is `itemIndex` ticked off: only
      the `prepared` flag of the lines with that index changes. */
  function MarkLines(items: seq<FeedLine>, itemIndex: int): (r: seq<FeedLine>)
    ensures |r| == |items|
    ensures forall k :: 0 <= k < |items| ==>
      && r[k].index == items[k].index && r[k].name == items[k].name && r[k].quantity == items[k].quantity
      && (r[k].prepared <==> items[k].prepared || items[k].index == itemIndex)
  {
    if |items| == 0 then []
    else
      var l := items[0];
      [if l.index == itemIndex then l.(prepared := true) else l] + MarkLines(items[1..], itemIndex)
  }

  /** The order with the line ticked off when it is the order meant. */
  function Marked(o: FeedOrder, orderId: string, itemIndex: int): FeedOrder
  {
    if o.id == orderId then o.(items := MarkLines(o.items, itemIndex)) else o
  }

  function MarkedAll(orders: seq<FeedOrder>, orderId: string, itemIndex: int): (r: seq<FeedOrder>)
    ensures |r| == |orders|
    ensures forall k :: 0 <= k < |orders| ==> r[k] == Marked(orders[k], orderId, itemIndex)
  {
    if |orders| == 0 then [] else [Marked(orders[0], orderId, itemIndex)] + MarkedAll(orders[1..], orderId, itemIndex)
  }

  /** The `item-prepared` event: tick the line off, then drop the orders
      with nothing left to prepare. */
  function ItemPrepared(orders: seq<FeedOrder>, orderId: string, itemIndex: int): seq<FeedOrder>
  {
    Filter(MarkedAll(orders, orderId, itemIndex), HasUnprepared)
  }

  /** After the event every order on screen has a line to prepare; an
      order is on screen exactly when it was, with the line ticked off when
      it is the order meant, and still has a line to prepare. No order is
      added, and the orders kept stay in their order on screen. */
  lemma ItemPreparedRules(orders: seq<FeedOrder>, orderId: string, itemIndex: int, x: FeedOrder)
    ensures var r := ItemPrepared(orders, orderId, itemIndex);
      && |r| <= |orders|
      && (x in r ==> HasUnprepared(x))
      && (x in r <==> HasUnprepared(x) && exists k :: 0 <= k < |orders| && x == Marked(orders[k], orderId, itemIndex))
      && KeptAt(MarkedAll(orders, orderId, itemIndex), r, HasUnprepared,
                FilterPositions(MarkedAll(orders, orderId, itemIndex), HasUnprepared))
  {
    var m := MarkedAll(orders, orderId, itemIndex);
    if exists k :: 0 <= k < |orders| && x == Marked(orders[k], orderId, itemIndex) {
      var k :| 0 <= k < |orders| && x == Marked(orders[k], orderId, itemIndex);
      assert m[k] == x;
    }
  }

  /** Orders other than the one meant stay exactly when they still have a
      line to prepare. */
  lemma ItemPreparedOthers(orders: seq<FeedOrder>, orderId: string, itemIndex: int, o: FeedOrder)
    requires o in orders && o.id != orderId
    ensures o in ItemPrepared(orders, orderId, itemIndex) <==> HasUnprepared(o)
  {
    var k :| 0 <= k < |orders| && orders[k] == o;
    assert MarkedAll(orders, orderId, itemIndex)[k] == o;
  }

  /** Ticking an already ticked line changes nothing. */
  lemma MarkLinesTwice(items: seq<FeedLine>, itemIndex: int)
    ensures MarkLines(MarkLines(items, itemIndex), itemIndex) == MarkLines(items, itemIndex)
  {
  }

  lemma MarkedAllKeeps(orders: seq<FeedOrder>, orderId: string, itemIndex: int)
    requires forall o :: o in orders ==> Marked(o, orderId, itemIndex) == o
    ensures MarkedAll(orders, orderId, itemIndex) == orders
  {
  }

  /** The same event twice leaves the screen as once. */
  lemma ItemPreparedTwice(orders: seq<FeedOrder>, orderId: string, itemIndex: int)
    ensures var once := ItemPrepared(orders, orderId, itemIndex);
      ItemPrepared(once, orderId, itemIndex) == once
  {
    var once := ItemPrepared(orders, orderId, itemIndex);
    forall o | o in once ensures Marked(o, orderId, itemIndex) == o {
      ItemPreparedRules(orders, orderId, itemIndex, o);
      var k :| 0 <= k < |orders| && o == Marked(orders[k], orderId, itemIndex);
      if orders[k].id == orderId {
        MarkLinesTwice(orders[k].items, itemIndex);
      }
    }
    MarkedAllKeeps(once, orderId, itemIndex);
    forall o | o in once ensures HasUnprepared(o) {
      ItemPreparedRules(orders, orderId, itemIndex, o);
    }
    FilterKeepsAll(once, HasUnprepared);
  }

  // ---------------------------------------------------------------------
  // order-updated
  // ---------------------------------------------------------------------

  function WithStatus(orders: seq<FeedOrder>, id: string, status: string): (r: seq<FeedOrder>)
    ensures |r| == |orders|
    ensures forall k :: 0 <= k < |orders| ==>
      r[k] == if orders[k].id == id then orders[k].(status := status) else orders[k]
  {
    if |orders| == 0 then []
    else
      var o := orders[0];
      [if o.id == id then o.(status := status) else o] + WithStatus(orders[1..], id, status)
  }

  /** The `order-updated` event: set the order's status, then keep only the
      confirmed orders. */
  function OrderUpdated(orders: seq<FeedOrder>, id: string, status: string): seq<FeedOrder>
  {
    Filter(WithStatus(orders, id, status), IsConfirmed)
  }

  /** After the event every order on screen is confirmed; other orders
      stay exactly when they are confirmed, and the updated order stays
      exactly when its new status is "confirmed"; the orders kept stay in
      their order on screen. */
  lemma OrderUpdatedRules(orders: seq<FeedOrder>, id: string, status: string, o: FeedOrder)
    requires o in orders
    ensures var r := OrderUpdated(orders, id, status);
      && (forall x :: x in r ==> IsConfirmed(x))
      && (o.id != id ==> (o in r <==> IsConfirmed(o)))
      && (o.id == id ==> (o.(status := status) in r <==> status == ConfirmedStatus))
      && KeptAt(WithStatus(orders, id, status), r, IsConfirmed,
                FilterPositions(WithStatus(orders, id, status), IsConfirmed))
  {
    var k :| 0 <= k < |orders| && orders[k] == o;
    assert WithStatus(orders, id, status)[k] == if o.id == id then o.(status := status) else o;
  }

  /** An update that confirms an order already confirmed, on a screen of
      confirmed orders, changes nothing. */
  lemma OrderUpdatedConfirmedKeeps(orders: seq<FeedOrder>, id: string)
    requires forall o :: o in orders ==> IsConfirmed(o)
    ensures OrderUpdated(orders, id, ConfirmedStatus) == orders
  {
    var w := WithStatus(orders, id, ConfirmedStatus);
    forall k | 0 <= k < |orders| ensures w[k] == orders[k] {
      assert IsConfirmed(orders[k]);
    }
    assert w == orders;
    FilterKeepsAll(orders, IsConfirmed);
  }

  // ---------------------------------------------------------------------
  // Tapping a line
  // ---------------------------------------------------------------------

  /** `markItemDone`: the local update is the event's, applied only when
      the server accepted the request. */
  function MarkItemDone(orders: seq<FeedOrder>, orderId: string, itemIndex: int, accepted: bool): seq<FeedOrder>
  {
    if accepted then ItemPrepared(orders, orderId, itemIndex) else orders
  }

  /** A tap on a line: only a line still to prepare sends the request. */
  function TapLine(orders: seq<FeedOrder>, o: FeedOrder, line: FeedLine, accepted: bool): seq<FeedOrder>
  {
    if line.prepared then orders else MarkItemDone(orders, o.id, line.index, accepted)
  }

  /** A failed request or a tap on a prepared line leaves the screen as it
      was; an accepted tap has the same effect as the server's event, so
      the event arriving afterwards changes nothing more. */
  lemma TapLineRules(orders: seq<FeedOrder>, o: FeedOrder, line: FeedLine, accepted: bool)
    ensures line.prepared || !accepted ==> TapLine(orders, o, line, accepted) == orders
    ensures !line.prepared && accepted ==>
      var r := TapLine(orders, o, line, accepted);
      r == ItemPrepared(orders, o.id, line.index) && ItemPrepared(r, o.id, line.index) == r
  {
    if !line.prepared && accepted {
      ItemPreparedTwice(orders, o.id, line.index);
    }
  }

  // ---------------------------------------------------------------------
  // getTimeSince
  // ---------------------------------------------------------------------

  /** How long ago an order was placed, as the label shows it. */
  datatype Elapsed = JustNow | MinutesAgo(minutes: nat) | HoursAgo(hours: nat, minutes: nat)

  /** The elapsed time of `diffMs` milliseconds. `Math.floor(diff / 60000)`
      rounds toward minus infinity, as `/` does for a positive divisor. */
  function ElapsedOf(diffMs: int): Elapsed
  {
    var mins := diffMs / 60000;
    if mins < 1 then JustNow
    else if mins < 60 then MinutesAgo(mins)
    else HoursAgo(mins / 60, mins % 60)
  }

  /** The label text. */
  function ElapsedText(e: Elapsed): string
  {
    match e
    case JustNow => "Just now"
    case MinutesAgo(m) => NatToString(m) + "m ago"
    case HoursAgo(h, m) => NatToString(h) + "h " + NatToString(m) + "m ago"
  }

  /** `getTimeSince` for an elapsed time in milliseconds. */
  function TimeSince(diffMs: int): string
  {
    ElapsedText(ElapsedOf(diffMs))
  }

  /** The whole minutes a label stands for. */
  function LabelMinutes(e: Elapsed): int
  {
    match e
    case JustNow => 0
    case MinutesAgo(m) => m
    case HoursAgo(h, m) => 60 * h + m
  }

  /** Under a minute (or a clock ahead of the order) reads "Just now";
      otherwise the label stands for the whole minutes elapsed, written as
      minutes below an hour and as hours and minutes (under 60) above. */
  lemma ElapsedRules(diffMs: int)
    ensures var e := ElapsedOf(diffMs);
      && (e.JustNow? <==> diffMs < 60000)
      && (!e.JustNow? ==> 60000 * LabelMinutes(e) <= diffMs < 60000 * (LabelMinutes(e) + 1))
      && (e.MinutesAgo? ==> 1 <= e.minutes < 60)
      && (e.HoursAgo? ==> e.hours >= 1 && e.minutes < 60)
  {
  }

  /** A later moment never shows fewer minutes. */
  lemma ElapsedMonotone(d1: int, d2: int)
    requires d1 <= d2
    ensures LabelMinutes(ElapsedOf(d1)) <= LabelMinutes(ElapsedOf(d2))
  {
    ElapsedRules(d1);
    ElapsedRules(d2);
  }
}
