/**
 * The database and the outbox the route handlers work on. The MongoDB
 * collections become the fields of the `Db` class (orders in insertion
 * order, the other collections keyed by id, the single settings document
 * if it exists), and every Socket.IO emit becomes a Message appended to
 * `outbox`. `World` is the value of all of it at one moment: each route
 * method is specified by a function from the World before the request to
 * the World after it and the response.
 */
module Store {
  import opened Common
  import opened OrderModel
  import opened MenuModel
  import opened InventoryModel
  import opened SettingsModel
  import opened UserModel
  import opened Realtime

  /** An error response: its HTTP status and message. */
  datatype ApiError =
    | BadRequest(message: string)
    | NotFound(message: string)
    | Conflict(message: string)
    | MenuItemNotFound(menuItemId: MenuId)
    | InsufficientStock(itemName: string, required: int, available: int)
    | ServerError

  function Status(e: ApiError): (code: int)
    ensures code == 400 <==> e.BadRequest? || e.MenuItemNotFound? || e.InsufficientStock?
    ensures code == 500 <==> e.ServerError?
  {
    match e
    case BadRequest(_) => 400
    case NotFound(_) => 404
    case Conflict(_) => 409
    case MenuItemNotFound(_) => 400
    case InsufficientStock(_, _, _) => 400
    case ServerError => 500
  }

  datatype World = World(
    orders: seq<Order>,
    menu: map<MenuId, MenuItem>,
    inventory: map<InvId, InventoryItem>,
    logs: seq<InventoryLog>,
    settings: Option<SettingsDoc>,
    users: map<UserId, User>,
    outbox: seq<Message>,
    nextId: nat)

  /** Every stored document passes its schema's validators, orders are
      numbered by position, and `nextId` is above every inventory and user
      id handed out so far. */
  predicate ValidWorld(w: World)
  {
    && (forall k :: 0 <= k < |w.orders| ==> w.orders[k].id == k && ValidOrder(w.orders[k]))
    && (forall id :: id in w.menu ==> ValidMenuItem(w.menu[id]))
    && (forall id :: id in w.inventory ==> ValidInventoryItem(w.inventory[id]) && id < w.nextId)
    && (w.settings.Some? ==> ValidSettings(w.settings.value))
    && (forall id :: id in w.users ==> ValidUser(w.users[id]) && id < w.nextId)
    && UniqueUsernames(w.users)
  }

  /** The empty database. */
  const EmptyWorld: World := World([], map[], map[], [], None, map[], [], 0)

  lemma EmptyWorldValid()
    ensures ValidWorld(EmptyWorld)
  {
  }

  /** Replacing one collection by a valid one keeps the World valid. */
  lemma ValidWithSettings(w: World, s: SettingsDoc)
    requires ValidWorld(w) && ValidSettings(s)
    ensures ValidWorld(w.(settings := Some(s)))
  {
  }

  lemma ValidWithMenu(w: World, menu: map<MenuId, MenuItem>)
    requires ValidWorld(w) && forall id :: id in menu ==> ValidMenuItem(menu[id])
    ensures ValidWorld(w.(menu := menu))
  {
  }

  lemma ValidWithUsers(w: World, users: map<UserId, User>, nextId: nat)
    requires ValidWorld(w) && nextId >= w.nextId
    requires forall id :: id in users ==> ValidUser(users[id]) && id < nextId
    requires UniqueUsernames(users)
    ensures ValidWorld(w.(users := users, nextId := nextId))
  {
  }

  lemma ValidWithInventory(w: World, inventory: map<InvId, InventoryItem>, nextId: nat)
    requires ValidWorld(w) && nextId >= w.nextId
    requires forall id :: id in inventory ==> ValidInventoryItem(inventory[id]) && id < nextId
    ensures ValidWorld(w.(inventory := inventory, nextId := nextId))
  {
  }

  class Db {
    var orders: seq<Order>
    var menu: map<MenuId, MenuItem>
    var inventory: map<InvId, InventoryItem>
    var logs: seq<InventoryLog>
    var settings: Option<SettingsDoc>
    var users: map<UserId, User>
    var outbox: seq<Message>
    var nextId: nat

    function State(): World
      reads this
    {
      World(orders, menu, inventory, logs, settings, users, outbox, nextId)
    }

    ghost predicate Valid()
      reads this
    {
      ValidWorld(State())
    }

    constructor ()
      ensures State() == EmptyWorld && Valid()
    {
      orders, menu, inventory, logs := [], map[], map[], [];
      settings, users, outbox, nextId := None, map[], [], 0;
    }
  }
}
