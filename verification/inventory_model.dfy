/**
 * The Inventory document (backend/src/models/Inventory.ts), a stock-keeping
 * item, and the InventoryLog record (backend/src/models/InventoryLog.ts)
 * appended for every stock deduction. Stock is a fixed-point number
 * scaled by Common.Scale; times are abstract integers.
 */
module InventoryModel {
  import opened Common

  datatype InventoryItem = InventoryItem(
    name: string,
    stock: int,
    unit: string,
    lastUpdated: int)

  datatype InventoryLog = InventoryLog(
    inventoryItem: InvId,
    inventoryItemName: string,
    quantityUsed: int,
    stockBefore: int,
    stockAfter: int,
    order: nat,
    tableNumber: string,
    createdAt: int)

  const DefaultUnit: string := "portions"

  /** The inventory validators: a trimmed non-empty name and stock at least 0. */
  predicate ValidInventoryItem(i: InventoryItem)
  {
    i.name != "" && Trimmed(i.name) && i.stock >= 0
  }

  /** A new inventory item: the name is trimmed, absent stock is 0, an absent
      unit is "portions", and the last update is the creation time. */
  function NewInventoryItem(name: string, stock: Option<int>, unit: Option<string>, now: int): (i: InventoryItem)
    ensures i.name == Trim(name)
    ensures i.stock == (if stock.Some? then stock.value else 0)
    ensures i.unit == (if unit.Some? then unit.value else DefaultUnit)
    ensures i.lastUpdated == now
  {
    InventoryItem(
      Trim(name),
      if stock.Some? then stock.value else 0,
      if unit.Some? then unit.value else DefaultUnit,
      now)
  }

  /** A new item with a non-blank name and without a stock figure is valid:
      its default stock, 0, meets the minimum. */
  lemma NewInventoryItemValid(name: string, unit: Option<string>, now: int)
    requires !IsBlank(name)
    ensures ValidInventoryItem(NewInventoryItem(name, None, unit, now))
  {
    TrimIdempotent(name);
  }
}
