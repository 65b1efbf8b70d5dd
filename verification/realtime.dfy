/**
 * Real-time notifications (backend/src/socket.ts and the emits of the
 * route handlers). A connected socket joins the room of its user's role;
 * a handler's `io.to(room)...emit(event, payload)` becomes a Message
 * appended to the outbox, naming the rooms it is addressed to and the
 * event with its payload. Delivery itself is not modelled.
 */
module Realtime {
  import opened Common
  import opened OrderModel
  import opened InventoryModel
  import opened UserModel

  datatype Room = KitchenRoom | BarRoom | CashierRoom | AdminRoom | WaiterRoom

  /** A line of a kitchen or bar ticket: its position in the whole order,
      no price. */
  datatype TicketLine = TicketLine(index: nat, name: string, quantity: int, prepared: bool)

  /** A line as the cashier sees it, with its price. */
  datatype PricedLine = PricedLine(name: string, quantity: int, price: int)

  datatype Event =
    | InventoryUpdated(items: map<InvId, InventoryItem>)
    | NewStationOrder(orderId: OrderId, tableNumber: string, lines: seq<TicketLine>,
                      status: OrderStatus, createdAt: int)
    | NewCashierOrder(orderId: OrderId, tableNumber: string, priced: seq<PricedLine>,
                      totalPrice: int, status: OrderStatus, createdAt: int)
    | ItemPrepared(preparedOrder: OrderId, itemIndex: int)
    | OrderUpdated(updatedOrder: OrderId, newStatus: OrderStatus)
    | TableFreed(freedTable: string)

  datatype Message = Message(rooms: set<Room>, event: Event)

  /** The room a socket joins on connection: kitchen, bar, cashier and admin
      users join the room of their role; waiters join none. */
  function JoinedRoom(role: UserRole): Option<Room>
  {
    match role
    case KitchenRole => Some(KitchenRoom)
    case BarRole => Some(BarRoom)
    case CashierRole => Some(CashierRoom)
    case AdminRole => Some(AdminRoom)
    case WaiterRole => None
  }

  /** A socket of a user with this role receives the message. */
  predicate Receives(role: UserRole, m: Message)
  {
    JoinedRoom(role).Some? && JoinedRoom(role).value in m.rooms
  }

  /** Every role except the waiter's has a room, and no socket is ever in
      the waiter room. */
  lemma RoomJoinRule(role: UserRole)
    ensures JoinedRoom(role) != Some(WaiterRoom)
    ensures JoinedRoom(role).None? <==> role == WaiterRole
  {
  }

  /** A message addressed only to the waiter room reaches no socket. */
  lemma WaiterRoomUnreachable(role: UserRole, e: Event)
    ensures !Receives(role, Message({WaiterRoom}, e))
  {
    RoomJoinRule(role);
  }
}
