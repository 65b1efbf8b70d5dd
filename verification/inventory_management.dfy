/**
 * The inventory page (frontend/src/pages/admin/InventoryManagement.tsx).
 *
 * The page lists the inventory and keeps the list current: a live
 * `inventory-updated` event carries the items whose stock the server just
 * changed; adding, saving and deleting an item update the list from the
 * server's answer. Each item shows a stock level with a matching badge.
 *
 * Stock amounts are fixed-point numbers scaled by `Scale` (see Common);
 * times are abstract integers.
 */
module InventoryManagement {
  import opened Common

  datatype StockItem = StockItem(id: string, name: string, stock: int, unit: string, lastUpdated: int)

  /** One entry per id. */
  predicate UniqueIds(items: seq<StockItem>)
  {
    forall i, j :: 0 <= i < j < |items| ==> items[i].id != items[j].id
  }

  // ---------------------------------------------------------------------
  // inventory-updated
  // ---------------------------------------------------------------------

  /** `updatedItems.find(u => u._id === id)`: the first update for the id. */
  function FindUpdate(updates: seq<StockItem>, id: string): (r: Option<StockItem>)
    ensures r.Some? ==> r.value in updates && r.value.id == id
    ensures r.None? <==> forall u :: u in updates ==> u.id != id
    ensures r.Some? ==>
      exists k :: 0 <= k < |updates| && updates[k] == r.value && forall j :: 0 <= j < k ==> updates[j].id != id
  {
    if |updates| == 0 then None
    else if updates[0].id == id then Some(updates[0])
    else
      var rest := FindUpdate(updates[1..], id);
      assert forall u :: u in updates ==> u == updates[0] || u in updates[1..];
      rest
  }

  /** An item with the event's update applied: only its stock and time. */
  function Refreshed(item: StockItem, updates: seq<StockItem>): StockItem
  {
    match FindUpdate(updates, item.id)
    case Some(u) => item.(stock := u.stock, lastUpdated := u.lastUpdated)
    case None => item
  }

  /** The `inventory-updated` event on the list. */
  function Merge(items: seq<StockItem>, updates: seq<StockItem>): (r: seq<StockItem>)
    ensures |r| == |items|
    ensures forall k :: 0 <= k < |items| ==> r[k] == Refreshed(items[k], updates)
  {
    if |items| == 0 then [] else [Refreshed(items[0], updates)] + Merge(items[1..], updates)
  }

  /** The merge keeps the list's length, order, ids, names and units; an
      item named by the event takes its stock and time from it, and any
      other item is left as it was. */
  lemma MergeRules(items: seq<StockItem>, updates: seq<StockItem>, k: int)
    requires 0 <= k < |items|
    ensures var r := Merge(items, updates); var it := items[k];
      && |r| == |items|
      && r[k].id == it.id && r[k].name == it.name && r[k].unit == it.unit
      && ((exists u :: u in updates && u.id == it.id) ==>
            exists u :: u in updates && u.id == it.id && r[k].stock == u.stock && r[k].lastUpdated == u.lastUpdated)
      && ((forall u :: u in updates ==> u.id != it.id) ==> r[k] == it)
  {
  }

  /** Updates for items the list does not hold change nothing. */
  lemma MergeIgnoresUnknown(items: seq<StockItem>, u: StockItem, updates: seq<StockItem>)
    requires forall it :: it in items ==> it.id != u.id
    ensures Merge(items, [u] + updates) == Merge(items, updates)
  {
    var a := Merge(items, [u] + updates);
    var b := Merge(items, updates);
    forall k | 0 <= k < |items| ensures a[k] == b[k] {
      assert items[k] in items;
      assert ([u] + updates)[1..] == updates;
    }
  }

  /** An empty event changes nothing, and the same event twice leaves the
      list as once. */
  lemma MergeIdempotent(items: seq<StockItem>, updates: seq<StockItem>)
    ensures Merge(items, []) == items
    ensures Merge(Merge(items, updates), updates) == Merge(items, updates)
  {
    var once := Merge(items, updates);
    forall k | 0 <= k < |items| ensures Refreshed(once[k], updates) == once[k] {
      assert once[k].id == items[k].id;
    }
  }

  // ---------------------------------------------------------------------
  // handleAdd, handleSave, handleDelete
  // ---------------------------------------------------------------------

  /** The stock the add form sends: the parsed number, or 0 when the text
      does not parse (`parseFloat(...) || 0`). */
  function AddStock(parsed: Option<int>): (s: int)
    ensures parsed.None? ==> s == 0
    ensures parsed.Some? ==> s == parsed.value
  {
    match parsed
    case Some(v) => v
    case None => 0
  }

  /** The list after adding: the server's copy at the end. */
  function Added(items: seq<StockItem>, created: Result<StockItem, string>): seq<StockItem>
  {
    match created
    case Success(it) => items + [it]
    case Failure(_) => items
  }

  /** The list after saving item `id`: the server's copy replaces every
      entry with that id. */
  function Saved(items: seq<StockItem>, id: string, saved: StockItem): (r: seq<StockItem>)
    ensures |r| == |items|
    ensures forall k :: 0 <= k < |items| ==> r[k] == (if items[k].id == id then saved else items[k])
  {
    if |items| == 0 then [] else [if items[0].id == id then saved else items[0]] + Saved(items[1..], id, saved)
  }

  function SaveResult(items: seq<StockItem>, id: string, answer: Result<StockItem, string>): seq<StockItem>
  {
    match answer
    case Success(it) => Saved(items, id, it)
    case Failure(_) => items
  }

  function OtherItem(id: string): StockItem -> bool
  {
    (it: StockItem) => it.id != id
  }

  /** The list after deleting item `id`, when the server agreed. */
  function Deleted(items: seq<StockItem>, id: string, accepted: bool): seq<StockItem>
  {
    if accepted then Filter(items, OtherItem(id)) else items
  }

  /** Adding appends the server's copy; saving replaces exactly the entry
      with the id and, with unique ids and an answer for the same id, keeps
      ids unique and puts the server's copy there; deleting removes exactly
      the entries with the id. A failed request changes nothing. */
  lemma ListUpdateRules(items: seq<StockItem>, id: string, it: StockItem, x: StockItem)
    ensures Added(items, Success(it)) == items + [it] && Added(items, Failure("")) == items
    ensures SaveResult(items, id, Failure("")) == items && Deleted(items, id, false) == items
    ensures UniqueIds(items) && it.id == id ==> UniqueIds(Saved(items, id, it))
    ensures x in Deleted(items, id, true) <==> x in items && x.id != id
    ensures (forall y :: y in items ==> y.id != id) ==> Deleted(items, id, true) == items
  {
    if UniqueIds(items) && it.id == id {
      SavedUnique(items, id, it);
    }
    DeletedMembers(items, id, x);
  }

  lemma SavedUnique(items: seq<StockItem>, id: string, it: StockItem)
    requires UniqueIds(items) && it.id == id
    ensures UniqueIds(Saved(items, id, it))
  {
    var r := Saved(items, id, it);
    forall i, j | 0 <= i < j < |r| ensures r[i].id != r[j].id {
      assert items[i].id != items[j].id;
    }
  }

  lemma DeletedMembers(items: seq<StockItem>, id: string, x: StockItem)
    ensures x in Deleted(items, id, true) <==> x in items && x.id != id
    ensures (forall y :: y in items ==> y.id != id) ==> Deleted(items, id, true) == items
  {
    if forall y :: y in items ==> y.id != id {
      FilterKeepsAll(items, OtherItem(id));
    }
  }

  /** Saving then deleting the same id leaves what deleting alone leaves. */
  lemma SaveThenDelete(items: seq<StockItem>, it: StockItem)
    ensures Deleted(Saved(items, it.id, it), it.id, true) == Deleted(items, it.id, true)
  {
    SaveDeleteStep(items, it);
  }

  lemma {:induction false} SaveDeleteStep(items: seq<StockItem>, it: StockItem)
    ensures Filter(Saved(items, it.id, it), OtherItem(it.id)) == Filter(items, OtherItem(it.id))
  {
    if |items| > 0 {
      SaveDeleteStep(items[1..], it);
      assert Saved(items, it.id, it)[1..] == Saved(items[1..], it.id, it);
    }
  }

  // ---------------------------------------------------------------------
  // getStockLabel and getStockBadge
  // ---------------------------------------------------------------------

  datatype StockLevel = OutOfStock | LowStock | InStock

  /** The level of a stock amount: nothing left, under 10, or more. */
  function Level(stock: int): StockLevel
  {
    if stock <= 0 then OutOfStock
    else if stock < 10 * Scale then LowStock
    else InStock
  }

  function LevelLabel(l: StockLevel): string
  {
    match l
    case OutOfStock => "Out of stock"
    case LowStock => "Low stock"
    case InStock => "In stock"
  }

  /** The colour of a level's badge. */
  function Colour(l: StockLevel): string
  {
    match l
    case OutOfStock => "red"
    case LowStock => "amber"
    case InStock => "emerald"
  }

  function LevelBadge(l: StockLevel): string
  {
    var c := Colour(l);
    "badge bg-" + c + "-500/20 text-" + c + "-400 border border-" + c + "-500/30"
  }

  /** `getStockLabel`. */
  function StockLabel(stock: int): string
  {
    LevelLabel(Level(stock))
  }

  /** `getStockBadge`. */
  function StockBadge(stock: int): string
  {
    LevelBadge(Level(stock))
  }

  /** Each level has its own label and its own badge. */
  lemma LevelTextsDistinct(a: StockLevel, b: StockLevel)
    ensures LevelLabel(a) == LevelLabel(b) <==> a == b
    ensures LevelBadge(a) == LevelBadge(b) <==> a == b
  {
    if a != b {
      assert LevelLabel(a)[0] != LevelLabel(b)[0];
      assert LevelBadge(a)[9] == Colour(a)[0];
      assert LevelBadge(b)[9] == Colour(b)[0];
    }
  }

  /** Rank of a level, worst first. */
  function Rank(l: StockLevel): nat
  {
    match l
    case OutOfStock => 0
    case LowStock => 1
    case InStock => 2
  }

  /** The label reads "Out of stock" at or below zero, "Low stock" below 10
      and "In stock" from 10 on. */
  lemma StockLabelRules(s: int)
    ensures StockLabel(s) == "Out of stock" <==> s <= 0
    ensures StockLabel(s) == "Low stock" <==> 0 < s < 10 * Scale
    ensures StockLabel(s) == "In stock" <==> s >= 10 * Scale
  {
    LevelTextsDistinct(Level(s), OutOfStock);
    LevelTextsDistinct(Level(s), LowStock);
    LevelTextsDistinct(Level(s), InStock);
  }

  /** Two amounts show the same badge exactly when they show the same
      label, that is, the same level. */
  lemma StockBadgeAgrees(s: int, t: int)
    ensures StockBadge(s) == StockBadge(t) <==> Level(s) == Level(t)
    ensures StockLabel(s) == StockLabel(t) <==> Level(s) == Level(t)
  {
    LevelTextsDistinct(Level(s), Level(t));
  }

  /** More stock never shows a worse level. */
  lemma LevelMonotone(s: int, t: int)
    requires s <= t
    ensures Rank(Level(s)) <= Rank(Level(t))
  {
  }
}
