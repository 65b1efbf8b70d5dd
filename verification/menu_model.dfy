/**
 * The MenuItem document (backend/src/models/MenuItem.ts): a sellable dish
 * with its price, category, active flag and recipe, the list of inventory
 * items it consumes per portion. Ingredient amounts are fixed-point
 * numbers scaled by Common.Scale.
 */
module MenuModel {
  import opened Common

  datatype Ingredient = Ingredient(inventoryItem: InvId, qty: int)

  datatype MenuItem = MenuItem(
    name: string,
    price: int,
    category: string,
    isActive: bool,
    ingredients: seq<Ingredient>)

  /** The ingredient-quantity minimum, 0.01. */
  const MinIngredientQty: int := Scale / 100

  const DefaultCategory: string := "Uncategorized"

  predicate ValidIngredient(g: Ingredient)
  {
    g.qty >= MinIngredientQty
  }

  /** The menu-item validators: a trimmed non-empty name, a price of at least
      0, and every ingredient amount at least 0.01. */
  predicate ValidMenuItem(m: MenuItem)
  {
    && m.name != "" && Trimmed(m.name)
    && m.price >= 0
    && forall k :: 0 <= k < |m.ingredients| ==> ValidIngredient(m.ingredients[k])
  }

  /** A new menu item: the name is trimmed; an absent category becomes
      "Uncategorized", an absent active flag true, absent ingredients the
      empty list. */
  function NewMenuItem(name: string, price: int, category: Option<string>, isActive: Option<bool>,
                       ingredients: Option<seq<Ingredient>>): (m: MenuItem)
    ensures m.name == Trim(name) && m.price == price
    ensures m.category == (if category.Some? then category.value else DefaultCategory)
    ensures m.isActive == (isActive != Some(false))
    ensures m.ingredients == (if ingredients.Some? then ingredients.value else [])
  {
    MenuItem(
      Trim(name), price,
      if category.Some? then category.value else DefaultCategory,
      if isActive.Some? then isActive.value else true,
      if ingredients.Some? then ingredients.value else [])
  }

  /** Every ingredient of a valid menu item consumes a strictly positive
      amount, so a recipe line always lowers stock. */
  lemma ValidIngredientPositive(m: MenuItem, k: int)
    requires ValidMenuItem(m) && 0 <= k < |m.ingredients|
    ensures m.ingredients[k].qty > 0
  {
  }

  /** A new menu item with a non-blank name and a non-negative price and
      no ingredients given is valid. */
  lemma NewMenuItemValid(name: string, price: int, category: Option<string>, isActive: Option<bool>)
    requires !IsBlank(name) && price >= 0
    ensures ValidMenuItem(NewMenuItem(name, price, category, isActive, None))
  {
    TrimIdempotent(name);
  }
}
