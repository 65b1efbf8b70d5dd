/**
 * The menu editor's ingredient picker (frontend/src/pages/admin/MenuManagement.tsx).
 *
 * While a dish is being edited the page keeps a selection of inventory
 * items, each with a quantity. Tapping an item toggles it in or out of the
 * selection, a quantity field edits one entry, and a search box narrows the
 * inventory list. Opening a dish for editing fills the selection from the
 * dish's stored ingredients, and the dish list shows each dish's
 * ingredients as one line of text.
 *
 * Quantities are fixed-point numbers scaled by `Scale` (see Common).
 */
module MenuManagement {
  import opened Common

  /** An inventory item as the page lists it. */
  datatype InventoryEntry = InventoryEntry(id: string, name: string, stock: int, unit: string)

  /** One entry of the selection: the inventory id, its display name and the
      amount the dish uses. */
  datatype Selected = Selected(inventoryItem: string, name: string, qty: int)

  /** A stored ingredient's reference as the menu list delivers it: the
      inventory document when it could be looked up, the bare id when it was
      not looked up, or nothing when the inventory document is gone. */
  datatype IngredientRef = Populated(id: string, name: string) | RawId(id: string) | Dangling

  datatype MenuIngredient = MenuIngredient(ref: IngredientRef, qty: int)

  /** An ingredient as the save request sends it. */
  datatype IngredientPayload = IngredientPayload(inventoryItem: string, qty: int)

  /** One entry per inventory id. */
  predicate UniqueSelection(sel: seq<Selected>)
  {
    forall i, j :: 0 <= i < j < |sel| ==> sel[i].inventoryItem != sel[j].inventoryItem
  }

  // ---------------------------------------------------------------------
  // isSelected
  // ---------------------------------------------------------------------

  /** `selectedIngredients.some(i => i.inventoryItem === invId)`. */
  function IsSelected(sel: seq<Selected>, id: string): (b: bool)
    ensures b <==> exists k :: 0 <= k < |sel| && sel[k].inventoryItem == id
  {
    if |sel| == 0 then false
    else if sel[0].inventoryItem == id then true
    else
      var rest := IsSelected(sel[1..], id);
      assert forall k :: 1 <= k < |sel| ==> sel[k] == sel[1..][k - 1];
      rest
  }

  // ---------------------------------------------------------------------
  // toggleIngredient
  // ---------------------------------------------------------------------

  function OtherSelection(id: string): Selected -> bool
  {
    (s: Selected) => s.inventoryItem != id
  }

  /** Tapping an inventory item: a selected item leaves the selection, any
      other joins it at the end with quantity 1. */
  function Toggle(sel: seq<Selected>, inv: InventoryEntry): seq<Selected>
  {
    if IsSelected(sel, inv.id) then Filter(sel, OtherSelection(inv.id))
    else sel + [Selected(inv.id, inv.name, Scale)]
  }

  /** A tap flips whether the item is selected and leaves every other entry
      where it was; a newly selected item comes with quantity 1. */
  lemma ToggleRules(sel: seq<Selected>, inv: InventoryEntry, x: Selected)
    ensures var r := Toggle(sel, inv);
      && (IsSelected(r, inv.id) <==> !IsSelected(sel, inv.id))
      && (x.inventoryItem != inv.id ==> (x in r <==> x in sel))
      && (!IsSelected(sel, inv.id) ==> r == sel + [Selected(inv.id, inv.name, Scale)])
  {
    var r := Toggle(sel, inv);
    if IsSelected(sel, inv.id) {
      assert forall k :: 0 <= k < |r| ==> r[k] in r;
    } else {
      assert r[|sel|].inventoryItem == inv.id;
    }
  }

  /** Tapping an unselected item twice gives the selection back. */
  lemma ToggleTwice(sel: seq<Selected>, inv: InventoryEntry)
    requires !IsSelected(sel, inv.id)
    ensures Toggle(Toggle(sel, inv), inv) == sel
  {
    var e := Selected(inv.id, inv.name, Scale);
    var once := sel + [e];
    assert once[|sel|] == e;
    assert IsSelected(once, inv.id);
    FilterAppend(sel, [e], OtherSelection(inv.id));
    assert Filter([e], OtherSelection(inv.id)) == [];
    forall x | x in sel ensures OtherSelection(inv.id)(x) {
    }
    FilterKeepsAll(sel, OtherSelection(inv.id));
  }

  lemma {:induction false} FilterKeepsUnique(sel: seq<Selected>, keep: Selected -> bool)
    requires UniqueSelection(sel)
    ensures UniqueSelection(Filter(sel, keep))
  {
    if |sel| > 0 {
      FilterKeepsUnique(sel[1..], keep);
      var rest := Filter(sel[1..], keep);
      forall s | s in rest ensures s.inventoryItem != sel[0].inventoryItem {
        var k :| 0 <= k < |sel[1..]| && sel[1..][k] == s;
        assert sel[k + 1] == s;
      }
      var r := (if keep(sel[0]) then [sel[0]] else []) + rest;
      forall i, j | 0 <= i < j < |r| ensures r[i].inventoryItem != r[j].inventoryItem {
        if keep(sel[0]) && i == 0 {
          assert r[j] in rest;
        }
      }
    }
  }

  /** Tapping never creates a second entry for an item. */
  lemma ToggleKeepsUnique(sel: seq<Selected>, inv: InventoryEntry)
    requires UniqueSelection(sel)
    ensures UniqueSelection(Toggle(sel, inv))
  {
    if IsSelected(sel, inv.id) {
      FilterKeepsUnique(sel, OtherSelection(inv.id));
    }
  }

  // ---------------------------------------------------------------------
  // updateIngredientQty
  // ---------------------------------------------------------------------

  /** The quantity field of one entry. */
  function UpdateQty(sel: seq<Selected>, id: string, qty: int): (r: seq<Selected>)
    ensures |r| == |sel|
    ensures forall k :: 0 <= k < |sel| ==>
      && r[k].inventoryItem == sel[k].inventoryItem && r[k].name == sel[k].name
      && r[k].qty == (if sel[k].inventoryItem == id then qty else sel[k].qty)
  {
    if |sel| == 0 then []
    else
      var s := sel[0];
      [if s.inventoryItem == id then s.(qty := qty) else s] + UpdateQty(sel[1..], id, qty)
  }

  /** Editing a quantity selects and deselects nothing, keeps one entry per
      item, and only the last edit of an entry counts. */
  lemma UpdateQtyRules(sel: seq<Selected>, id: string, a: int, b: int, other: string)
    ensures IsSelected(UpdateQty(sel, id, a), other) <==> IsSelected(sel, other)
    ensures UniqueSelection(sel) ==> UniqueSelection(UpdateQty(sel, id, a))
    ensures UpdateQty(UpdateQty(sel, id, a), id, b) == UpdateQty(sel, id, b)
  {
    var r := UpdateQty(sel, id, a);
    if IsSelected(sel, other) {
      var k :| 0 <= k < |sel| && sel[k].inventoryItem == other;
      assert r[k].inventoryItem == other;
    }
    if IsSelected(r, other) {
      var k :| 0 <= k < |r| && r[k].inventoryItem == other;
      assert sel[k].inventoryItem == other;
    }
  }

  // ---------------------------------------------------------------------
  // filteredInventory
  // ---------------------------------------------------------------------

  /** The search matches the item: its lower-cased name contains the
      lower-cased search. */
  function Matches(search: string): InventoryEntry -> bool
  {
    (inv: InventoryEntry) => Contains(ToLower(inv.name), ToLower(search))
  }

  function FilteredInventory(items: seq<InventoryEntry>, search: string): seq<InventoryEntry>
  {
    Filter(items, Matches(search))
  }

  /** The list keeps exactly the items whose name contains the search,
      ignoring case; an empty search keeps every item in order. */
  lemma FilteredInventoryRules(items: seq<InventoryEntry>, search: string, x: InventoryEntry)
    ensures x in FilteredInventory(items, search) <==> x in items && Contains(ToLower(x.name), ToLower(search))
    ensures search == "" ==> FilteredInventory(items, search) == items
  {
    if search == "" {
      forall inv | inv in items ensures Matches(search)(inv) {
        ContainsEmpty(ToLower(inv.name));
      }
      FilterKeepsAll(items, Matches(search));
    }
  }

  lemma {:induction false} FilterSameTest(items: seq<InventoryEntry>, f: InventoryEntry -> bool, g: InventoryEntry -> bool)
    requires forall x :: x in items ==> f(x) == g(x)
    ensures Filter(items, f) == Filter(items, g)
  {
    if |items| > 0 {
      assert items[0] in items;
      FilterSameTest(items[1..], f, g);
    }
  }

  /** The search ignores the case of its own letters. */
  lemma FilteredInventoryIgnoresCase(items: seq<InventoryEntry>, search: string)
    ensures FilteredInventory(items, ToLower(search)) == FilteredInventory(items, search)
  {
    ToLowerIdempotent(search);
    FilterSameTest(items, Matches(ToLower(search)), Matches(search));
  }

  // ---------------------------------------------------------------------
  // handleAddNewInventory: the new item is listed and selected
  // ---------------------------------------------------------------------

  /** After the server created `created`, it joins the inventory list and
      the selection with quantity 1; a failed request changes neither. */
  function AddNewInventory(items: seq<InventoryEntry>, sel: seq<Selected>, created: Result<InventoryEntry, string>): (seq<InventoryEntry>, seq<Selected>)
  {
    match created
    case Success(inv) => (items + [inv], sel + [Selected(inv.id, inv.name, Scale)])
    case Failure(_) => (items, sel)
  }

  /** The created item is selected and listed; a fresh id keeps one entry
      per item. */
  lemma AddNewInventoryRules(items: seq<InventoryEntry>, sel: seq<Selected>, created: Result<InventoryEntry, string>)
    ensures created.Failure? ==> AddNewInventory(items, sel, created) == (items, sel)
    ensures created.Success? ==>
      var (items', sel') := AddNewInventory(items, sel, created);
      && created.value in items' && IsSelected(sel', created.value.id)
      && items'[..|items|] == items && sel'[..|sel|] == sel
      && (UniqueSelection(sel) && !IsSelected(sel, created.value.id) ==> UniqueSelection(sel'))
  {
    if created.Success? {
      var sel' := AddNewInventory(items, sel, created).1;
      assert sel'[|sel|].inventoryItem == created.value.id;
    }
  }

  // ---------------------------------------------------------------------
  // handleEdit and handleSubmit: the selection from a stored dish and back
  // ---------------------------------------------------------------------

  /** The selection entry for a stored ingredient; a reference whose
      document is gone makes the handler fail. */
  function EditEntry(ing: MenuIngredient): Option<Selected>
  {
    match ing.ref
    case Populated(id, name) => Some(Selected(id, if name != "" then name else "Unknown", ing.qty))
    case RawId(id) => Some(Selected(id, "Unknown", ing.qty))
    case Dangling => None
  }

  /** The inventory id a reference stands for. */
  function RefId(r: IngredientRef): string
    requires !r.Dangling?
  {
    r.id
  }

  /** The selection `handleEdit` fills in, or None when it throws on a
      dangling reference. The form fields are set before the throw; the
      selection, the edited id and the form's visibility stay as they
      were. */
  function EditSelection(ings: seq<MenuIngredient>): (r: Option<seq<Selected>>)
    ensures r.None? <==> exists k :: 0 <= k < |ings| && ings[k].ref.Dangling?
    ensures r.Some? ==> |r.value| == |ings| && forall k :: 0 <= k < |ings| ==> Some(r.value[k]) == EditEntry(ings[k])
  {
    if |ings| == 0 then Some([])
    else
      match EditEntry(ings[0])
      case None => None
      case Some(e) =>
        var rest := EditSelection(ings[1..]);
        assert forall k :: 1 <= k < |ings| ==> ings[k] == ings[1..][k - 1];
        if rest.None? then None else Some([e] + rest.value)
  }

  /** The ingredients the save request sends for a selection. */
  function Payload(sel: seq<Selected>): (r: seq<IngredientPayload>)
    ensures |r| == |sel|
    ensures forall k :: 0 <= k < |sel| ==> r[k] == IngredientPayload(sel[k].inventoryItem, sel[k].qty)
  {
    if |sel| == 0 then [] else [IngredientPayload(sel[0].inventoryItem, sel[0].qty)] + Payload(sel[1..])
  }

  /** Opening a dish keeps its ingredients' order, ids and amounts, shows
      the stored name or "Unknown", and saving it unchanged sends back
      exactly the stored ingredients. */
  lemma EditRoundTrip(ings: seq<MenuIngredient>)
    requires forall k :: 0 <= k < |ings| ==> !ings[k].ref.Dangling?
    ensures EditSelection(ings).Some?
    ensures var sel := EditSelection(ings).value;
      && |sel| == |ings|
      && (forall k :: 0 <= k < |ings| ==>
            && sel[k].name == (if ings[k].ref.Populated? && ings[k].ref.name != "" then ings[k].ref.name else "Unknown")
            && Payload(sel)[k] == IngredientPayload(RefId(ings[k].ref), ings[k].qty))
  {
  }

  // ---------------------------------------------------------------------
  // getIngredientsSummary
  // ---------------------------------------------------------------------

  /** The four decimals of `0 < f < Scale`, without trailing zeros. */
  function FractionDigits(f: nat): (s: string)
    requires 0 < f < Scale
    ensures 1 <= |s| <= 4 && s[|s| - 1] != '0' && AllDigits(s)
  {
    var digits := [DigitChar(f / 1000), DigitChar(f / 100 % 10), DigitChar(f / 10 % 10), DigitChar(f % 10)];
    if f % 1000 == 0 then digits[..1]
    else if f % 100 == 0 then digits[..2]
    else if f % 10 == 0 then digits[..3]
    else digits
  }

  /** A scaled quantity written as a JavaScript number is: the whole part,
      then the decimals when there are any. */
  function QtyText(q: int): (s: string)
    ensures |s| > 0
  {
    var m: nat := if q < 0 then -q else q;
    var body := NatToString(m / Scale) + (if m % Scale == 0 then "" else "." + FractionDigits(m % Scale));
    if q < 0 then "-" + body else body
  }

  /** A whole quantity is written as its integer. */
  lemma QtyTextWhole(n: nat)
    ensures QtyText(n * Scale) == NatToString(n)
  {
    var m := n * Scale;
    assert m / Scale == n && m % Scale == 0;
    assert QtyText(m) == NatToString(m / Scale) + "";
  }

  /** The label of one ingredient: the name when the inventory document was
      looked up and has one, "?" otherwise. */
  function Piece(ing: MenuIngredient): (s: string)
    ensures |s| >= 3
  {
    var name := match ing.ref
      case Populated(_, n) => if n != "" then n else "?"
      case RawId(_) => "?"
      case Dangling => "?";
    name + " ×" + QtyText(ing.qty)
  }

  function Pieces(ings: seq<MenuIngredient>): (r: seq<string>)
    ensures |r| == |ings| && forall k :: 0 <= k < |ings| ==> r[k] == Piece(ings[k])
  {
    if |ings| == 0 then [] else [Piece(ings[0])] + Pieces(ings[1..])
  }

  /** The dish's ingredients as one line of text, "—" when there are none. */
  function IngredientsSummary(ings: seq<MenuIngredient>): string
  {
    var joined := Join(Pieces(ings), ", ");
    if joined != "" then joined else "—"
  }

  lemma {:induction false} JoinSnoc(parts: seq<string>, p: string, sep: string)
    requires |parts| > 0
    ensures Join(parts + [p], sep) == Join(parts, sep) + sep + p
  {
    if |parts| == 1 {
      assert parts + [p] == [parts[0], p];
    } else {
      assert (parts + [p])[1..] == parts[1..] + [p];
      JoinSnoc(parts[1..], p, sep);
    }
  }

  lemma JoinLength(parts: seq<string>, sep: string)
    requires |parts| > 0
    ensures |Join(parts, sep)| >= |parts[0]|
  {
  }

  /** The summary is "—" exactly for a dish without ingredients; one
      ingredient is its label, and each further ingredient adds ", " and
      its label. */
  lemma SummaryRules(ings: seq<MenuIngredient>, ing: MenuIngredient)
    ensures IngredientsSummary(ings) == "—" <==> |ings| == 0
    ensures IngredientsSummary([ing]) == Piece(ing)
    ensures |ings| > 0 ==> IngredientsSummary(ings + [ing]) == IngredientsSummary(ings) + ", " + Piece(ing)
  {
    if |ings| > 0 {
      JoinLength(Pieces(ings), ", ");
      assert Pieces(ings + [ing]) == Pieces(ings) + [Piece(ing)];
      JoinSnoc(Pieces(ings), Piece(ing), ", ");
    }
    assert Pieces([ing]) == [Piece(ing)];
  }
}
