/**
 * The waiter's order screen (frontend/src/pages/waiter/WaiterDashboard.tsx).
 *
 * The waiter picks a table, fills a cart from the menu and submits it. The
 * cart is a list of entries, one per menu item, each with a quantity; the
 * `+` and `-` buttons add and remove one unit. Submitting is refused on the
 * screen when the cart is empty or no table is chosen; otherwise the screen
 * sends one (menu item, quantity) line per entry and, once the server
 * accepts the order, clears the cart and the table. The category tabs are
 * "All" followed by the distinct categories of the menu in sorted order.
 */
module WaiterDashboard {
  import opened Common

  /** A menu item as the screen receives it. */
  datatype MenuEntry = MenuEntry(id: string, name: string, category: string)

  /** One cart entry. */
  datatype CartItem = CartItem(menuItemId: string, name: string, quantity: int)

  // ---------------------------------------------------------------------
  // The cart
  // ---------------------------------------------------------------------

  /** Some entry of the cart is for `id`. */
  predicate InCart(cart: seq<CartItem>, id: string)
  {
    exists k :: 0 <= k < |cart| && cart[k].menuItemId == id
  }

  /** At most one entry per menu item. */
  predicate UniqueIds(cart: seq<CartItem>)
  {
    forall i, j :: 0 <= i < j < |cart| ==> cart[i].menuItemId != cart[j].menuItemId
  }

  /** The shape every cart the screen builds has: one entry per menu item,
      each with at least one unit. */
  predicate ValidCart(cart: seq<CartItem>)
  {
    UniqueIds(cart) && forall k :: 0 <= k < |cart| ==> cart[k].quantity >= 1
  }

  /** The first entry for `id`: `cart.find(c => c.menuItemId === id)`. */
  function Find(cart: seq<CartItem>, id: string): (r: Option<CartItem>)
    ensures r.Some? ==> r.value in cart && r.value.menuItemId == id
    ensures r.None? <==> !InCart(cart, id)
  {
    if |cart| == 0 then None
    else if cart[0].menuItemId == id then Some(cart[0])
    else
      var r := Find(cart[1..], id);
      assert InCart(cart, id) <==> InCart(cart[1..], id) by {
        if InCart(cart, id) {
          var k :| 0 <= k < |cart| && cart[k].menuItemId == id;
          assert cart[1..][k - 1] == cart[k];
        }
        if InCart(cart[1..], id) {
          var k :| 0 <= k < |cart[1..]| && cart[1..][k].menuItemId == id;
          assert cart[k + 1] == cart[1..][k];
        }
      }
      r
  }

  /** Every entry for `id` with its quantity changed by `delta`: the `map`
      of the two updaters. */
  function Bumped(cart: seq<CartItem>, id: string, delta: int): (r: seq<CartItem>)
    ensures |r| == |cart|
    ensures forall k :: 0 <= k < |cart| ==>
      r[k] == if cart[k].menuItemId == id then cart[k].(quantity := cart[k].quantity + delta) else cart[k]
  {
    if |cart| == 0 then []
    else
      var c := cart[0];
      [if c.menuItemId == id then c.(quantity := c.quantity + delta) else c] + Bumped(cart[1..], id, delta)
  }

  /** The entry is not for `id`. */
  function OtherEntry(id: string): CartItem -> bool
  {
    (c: CartItem) => c.menuItemId != id
  }

  /** `addToCart`: one more unit of an item already in the cart, or a new
      entry with one unit at the end. */
  function AddToCart(cart: seq<CartItem>, item: MenuEntry): seq<CartItem>
  {
    if Find(cart, item.id).Some? then Bumped(cart, item.id, 1)
    else cart + [CartItem(item.id, item.name, 1)]
  }

  /** `removeFromCart`: one unit less while more than one is left,
      otherwise the entry goes. */
  function RemoveFromCart(cart: seq<CartItem>, id: string): seq<CartItem>
  {
    var existing := Find(cart, id);
    if existing.Some? && existing.value.quantity > 1 then Bumped(cart, id, -1)
    else Filter(cart, OtherEntry(id))
  }

  /** `getCartQty`: the quantity of the entry for `id`, 0 without one. */
  function CartQty(cart: seq<CartItem>, id: string): int
  {
    match Find(cart, id)
    case None => 0
    case Some(c) => c.quantity
  }

  /** `totalItems`: the units in the cart. */
  function TotalItems(cart: seq<CartItem>): int
  {
    if |cart| == 0 then 0 else cart[0].quantity + TotalItems(cart[1..])
  }

  // ---------------------------------------------------------------------
  // Finding entries after an update
  // ---------------------------------------------------------------------

  /** The entry after the tail's first for `x`: the head is not for it. */
  lemma FindSkip(cart: seq<CartItem>, x: string)
    requires |cart| > 0 && cart[0].menuItemId != x
    ensures Find(cart, x) == Find(cart[1..], x)
  {
  }

  /** In a cart with one entry per item, the tail has no entry for the
      head's item. */
  lemma HeadUnique(cart: seq<CartItem>)
    requires |cart| > 0 && UniqueIds(cart)
    ensures !InCart(cart[1..], cart[0].menuItemId) && UniqueIds(cart[1..])
  {
    forall k | 0 <= k < |cart[1..]| ensures cart[1..][k].menuItemId != cart[0].menuItemId {
      assert cart[1..][k] == cart[k + 1];
    }
  }

  lemma {:induction false} FindBumped(cart: seq<CartItem>, id: string, delta: int, x: string)
    ensures Find(Bumped(cart, id, delta), x).Some? == Find(cart, x).Some?
    ensures Find(cart, x).Some? && x != id ==> Find(Bumped(cart, id, delta), x) == Find(cart, x)
    ensures Find(cart, x).Some? && x == id ==>
      Find(Bumped(cart, id, delta), x).value == Find(cart, x).value.(quantity := Find(cart, x).value.quantity + delta)
  {
    if |cart| > 0 {
      var b := Bumped(cart, id, delta);
      if cart[0].menuItemId != x {
        FindBumped(cart[1..], id, delta, x);
        assert b[1..] == Bumped(cart[1..], id, delta);
        FindSkip(cart, x);
        FindSkip(b, x);
      }
    }
  }

  lemma {:induction false} FindAppend(cart: seq<CartItem>, c: CartItem, x: string)
    ensures Find(cart + [c], x) ==
      if Find(cart, x).Some? then Find(cart, x) else if c.menuItemId == x then Some(c) else None
  {
    if |cart| > 0 {
      FindAppend(cart[1..], c, x);
      assert (cart + [c])[1..] == cart[1..] + [c];
    }
  }

  lemma {:induction false} FindFiltered(cart: seq<CartItem>, id: string, x: string)
    ensures Find(Filter(cart, OtherEntry(id)), x) == if x == id then None else Find(cart, x)
  {
    if |cart| > 0 {
      FindFiltered(cart[1..], id, x);
      var keep := OtherEntry(id);
      var rest := Filter(cart[1..], keep);
      assert Filter(cart, keep) == (if keep(cart[0]) then [cart[0]] else []) + rest;
      if cart[0].menuItemId == id {
        assert Filter(cart, keep) == rest;
      } else {
        var f := [cart[0]] + rest;
        assert Filter(cart, keep) == f;
        if cart[0].menuItemId != x {
          assert f[1..] == rest;
          FindSkip(f, x);
          FindSkip(cart, x);
        }
      }
    }
  }

  // ---------------------------------------------------------------------
  // What the updaters do
  // ---------------------------------------------------------------------

  /** Adding an item in the cart raises only its entry by one; adding a new
      item appends an entry with one unit. */
  lemma AddToCartRules(cart: seq<CartItem>, item: MenuEntry)
    ensures var r := AddToCart(cart, item);
      && (InCart(cart, item.id) ==>
            |r| == |cart| && forall k :: 0 <= k < |cart| ==>
              r[k] == if cart[k].menuItemId == item.id then cart[k].(quantity := cart[k].quantity + 1) else cart[k])
      && (!InCart(cart, item.id) ==> r == cart + [CartItem(item.id, item.name, 1)])
  {
  }

  /** After adding, the item's quantity is one more and every other
      item's is unchanged. */
  lemma AddToCartQty(cart: seq<CartItem>, item: MenuEntry, x: string)
    ensures CartQty(AddToCart(cart, item), x) == CartQty(cart, x) + (if x == item.id then 1 else 0)
  {
    if Find(cart, item.id).Some? {
      FindBumped(cart, item.id, 1, x);
      if x == item.id {
        assert Find(cart, x).Some?;
      }
    } else {
      FindAppend(cart, CartItem(item.id, item.name, 1), x);
    }
  }

  /** Removing an item that is not in the cart changes nothing; otherwise
      its entry loses a unit while more than one is left and disappears
      when one is left, the other entries staying as they were, in order. */
  lemma RemoveFromCartRules(cart: seq<CartItem>, id: string)
    ensures var r := RemoveFromCart(cart, id);
      && (!InCart(cart, id) ==> r == cart)
      && (CartQty(cart, id) > 1 ==>
            |r| == |cart| && forall k :: 0 <= k < |cart| ==>
              r[k] == if cart[k].menuItemId == id then cart[k].(quantity := cart[k].quantity - 1) else cart[k])
      && (CartQty(cart, id) <= 1 ==>
            && !InCart(r, id) && (forall c :: c in cart && c.menuItemId != id ==> c in r)
            && KeptAt(cart, r, OtherEntry(id), FilterPositions(cart, OtherEntry(id))))
  {
    if !InCart(cart, id) {
      forall c | c in cart ensures OtherEntry(id)(c) {
        var k :| 0 <= k < |cart| && cart[k] == c;
      }
      FilterKeepsAll(cart, OtherEntry(id));
    }
    if CartQty(cart, id) <= 1 {
      FindFiltered(cart, id, id);
    }
  }

  /** On a valid cart, removing lowers the item's quantity by one down to
      zero and leaves every other item's quantity alone. */
  lemma RemoveFromCartQty(cart: seq<CartItem>, id: string, x: string)
    requires ValidCart(cart)
    ensures CartQty(RemoveFromCart(cart, id), x) ==
      if x == id then (if CartQty(cart, id) > 1 then CartQty(cart, id) - 1 else 0) else CartQty(cart, x)
  {
    var existing := Find(cart, id);
    if existing.Some? && existing.value.quantity > 1 {
      FindBumped(cart, id, -1, x);
    } else {
      FindFiltered(cart, id, x);
    }
  }

  /** Removing an item whose entry was just raised lowers it back. */
  lemma RemoveUndoesBump(cart: seq<CartItem>, id: string)
    requires ValidCart(cart) && InCart(cart, id)
    ensures RemoveFromCart(Bumped(cart, id, 1), id) == cart
  {
    var c := Find(cart, id).value;
    assert c.quantity >= 1 by {
      var k :| 0 <= k < |cart| && cart[k] == c;
    }
    var added := Bumped(cart, id, 1);
    FindBumped(cart, id, 1, id);
    assert Find(added, id).value.quantity == c.quantity + 1;
    var back := Bumped(added, id, -1);
    assert forall k :: 0 <= k < |cart| ==> back[k] == cart[k];
    assert back == cart;
  }

  /** Removing an item whose single-unit entry was just appended drops it. */
  lemma RemoveUndoesAppend(cart: seq<CartItem>, c: CartItem)
    requires !InCart(cart, c.menuItemId) && c.quantity == 1
    ensures RemoveFromCart(cart + [c], c.menuItemId) == cart
  {
    var id := c.menuItemId;
    FindAppend(cart, c, id);
    var keep := OtherEntry(id);
    FilterAppend(cart, [c], keep);
    forall e | e in cart ensures keep(e) {
      var k :| 0 <= k < |cart| && cart[k] == e;
    }
    FilterKeepsAll(cart, keep);
    assert Filter([c], keep) == [];
  }

  /** `addToCart(x)` and then `removeFromCart(x)` give back the cart. */
  lemma AddThenRemove(cart: seq<CartItem>, item: MenuEntry)
    requires ValidCart(cart)
    ensures RemoveFromCart(AddToCart(cart, item), item.id) == cart
  {
    if Find(cart, item.id).Some? {
      RemoveUndoesBump(cart, item.id);
    } else {
      RemoveUndoesAppend(cart, CartItem(item.id, item.name, 1));
    }
  }

  // ---------------------------------------------------------------------
  // Invariants
  // ---------------------------------------------------------------------

  /** Updating quantities keeps the ids. */
  lemma BumpedIds(cart: seq<CartItem>, id: string, delta: int)
    requires UniqueIds(cart)
    ensures UniqueIds(Bumped(cart, id, delta))
  {
  }

  /** Adding keeps one entry per item, each with at least one unit. */
  lemma AddKeepsValid(cart: seq<CartItem>, item: MenuEntry)
    requires ValidCart(cart)
    ensures ValidCart(AddToCart(cart, item))
  {
    if Find(cart, item.id).None? {
      var r := cart + [CartItem(item.id, item.name, 1)];
      forall i, j | 0 <= i < j < |r| ensures r[i].menuItemId != r[j].menuItemId {
        if j == |cart| {
          assert r[i] == cart[i];
        }
      }
    }
  }

  /** Filtering keeps one entry per item. */
  lemma {:induction false} FilterKeepsUnique(cart: seq<CartItem>, keep: CartItem -> bool)
    requires UniqueIds(cart)
    ensures UniqueIds(Filter(cart, keep))
  {
    if |cart| > 0 {
      FilterKeepsUnique(cart[1..], keep);
      var rest := Filter(cart[1..], keep);
      forall c | c in rest ensures c.menuItemId != cart[0].menuItemId {
        var k :| 0 <= k < |cart[1..]| && cart[1..][k] == c;
        assert cart[k + 1] == c;
      }
      var r := (if keep(cart[0]) then [cart[0]] else []) + rest;
      forall i, j | 0 <= i < j < |r| ensures r[i].menuItemId != r[j].menuItemId {
        if keep(cart[0]) && i == 0 {
          assert r[j] in rest;
        }
      }
    }
  }

  /** Removing keeps one entry per item, each with at least one unit. */
  lemma RemoveKeepsValid(cart: seq<CartItem>, id: string)
    requires ValidCart(cart)
    ensures ValidCart(RemoveFromCart(cart, id))
  {
    var existing := Find(cart, id);
    if existing.Some? && existing.value.quantity > 1 {
      var r := Bumped(cart, id, -1);
      forall k | 0 <= k < |r| ensures r[k].quantity >= 1 {
        if cart[k].menuItemId == id {
          assert cart[k] == existing.value by {
            var j :| 0 <= j < |cart| && cart[j] == existing.value;
          }
        }
      }
    } else {
      var r := Filter(cart, OtherEntry(id));
      FilterKeepsUnique(cart, OtherEntry(id));
      forall k | 0 <= k < |r| ensures r[k].quantity >= 1 {
        assert r[k] in cart;
      }
    }
  }

  // ---------------------------------------------------------------------
  // The total
  // ---------------------------------------------------------------------

  lemma {:induction false} TotalAppend(cart: seq<CartItem>, c: CartItem)
    ensures TotalItems(cart + [c]) == TotalItems(cart) + c.quantity
  {
    if |cart| > 0 {
      TotalAppend(cart[1..], c);
      assert (cart + [c])[1..] == cart[1..] + [c];
    }
  }

  lemma {:induction false} TotalBumped(cart: seq<CartItem>, id: string, delta: int)
    requires UniqueIds(cart)
    ensures TotalItems(Bumped(cart, id, delta)) == TotalItems(cart) + (if InCart(cart, id) then delta else 0)
  {
    if |cart| > 0 {
      TotalBumped(cart[1..], id, delta);
      assert Bumped(cart, id, delta)[1..] == Bumped(cart[1..], id, delta);
      HeadUnique(cart);
      if cart[0].menuItemId != id {
        FindSkip(cart, id);
      }
    }
  }

  lemma {:induction false} TotalFiltered(cart: seq<CartItem>, id: string)
    requires UniqueIds(cart)
    ensures TotalItems(Filter(cart, OtherEntry(id))) == TotalItems(cart) - CartQty(cart, id)
  {
    if |cart| > 0 {
      HeadUnique(cart);
      TotalFiltered(cart[1..], id);
      var keep := OtherEntry(id);
      var rest := Filter(cart[1..], keep);
      assert Filter(cart, keep) == (if keep(cart[0]) then [cart[0]] else []) + rest;
      if cart[0].menuItemId == id {
        assert Filter(cart, keep) == rest;
      } else {
        FindSkip(cart, id);
        assert TotalItems([cart[0]] + rest) == cart[0].quantity + TotalItems(rest) by {
          assert ([cart[0]] + rest)[1..] == rest;
        }
      }
    }
  }

  /** On a valid cart, adding raises the total by one and removing lowers
      it by one when the item is in the cart. */
  lemma TotalItemsRules(cart: seq<CartItem>, item: MenuEntry, id: string)
    requires ValidCart(cart)
    ensures TotalItems(AddToCart(cart, item)) == TotalItems(cart) + 1
    ensures TotalItems(RemoveFromCart(cart, id)) == TotalItems(cart) - (if InCart(cart, id) then 1 else 0)
  {
    if Find(cart, item.id).Some? {
      TotalBumped(cart, item.id, 1);
    } else {
      TotalAppend(cart, CartItem(item.id, item.name, 1));
    }
    var existing := Find(cart, id);
    if existing.Some? && existing.value.quantity > 1 {
      TotalBumped(cart, id, -1);
    } else {
      TotalFiltered(cart, id);
      if existing.Some? {
        assert existing.value.quantity >= 1 by {
          var k :| 0 <= k < |cart| && cart[k] == existing.value;
        }
      }
    }
  }

  // ---------------------------------------------------------------------
  // Submitting the order
  // ---------------------------------------------------------------------

  /** One line of the request body. */
  datatype OrderLine = OrderLine(menuItemId: string, quantity: int)

  /** The body of POST /api/waiter/orders. */
  datatype OrderRequest = OrderRequest(tableNumber: string, items: seq<OrderLine>)

  /** What the screen holds between submissions. */
  datatype Screen = Screen(cart: seq<CartItem>, tableNumber: Option<string>)

  const EmptyCartMessage: string := "Please add items to the order"
  const NoTableMessage: string := "Please select a table"

  /** The request lines: one per cart entry. */
  function Lines(cart: seq<CartItem>): (ls: seq<OrderLine>)
    ensures |ls| == |cart|
    ensures forall k :: 0 <= k < |cart| ==> ls[k] == OrderLine(cart[k].menuItemId, cart[k].quantity)
  {
    if |cart| == 0 then [] else [OrderLine(cart[0].menuItemId, cart[0].quantity)] + Lines(cart[1..])
  }

  /** The units the request asks for. */
  function LineUnits(ls: seq<OrderLine>): int
  {
    if |ls| == 0 then 0 else ls[0].quantity + LineUnits(ls[1..])
  }

  /** `handleSubmitOrder` up to the request: the screen's own refusals, in
      the order it checks them, or the request it sends. The table is
      missing when none is chosen or its name is empty. */
  function Submission(s: Screen): Result<OrderRequest, string>
  {
    if |s.cart| == 0 then Failure(EmptyCartMessage)
    else if s.tableNumber.None? || s.tableNumber.value == "" then Failure(NoTableMessage)
    else Success(OrderRequest(s.tableNumber.value, Lines(s.cart)))
  }

  /** The screen after a submission; `accepted` is whether the server took
      the order. */
  function AfterSubmit(s: Screen, accepted: bool): Screen
  {
    if Submission(s).Success? && accepted then Screen([], None) else s
  }

  /** No request is made for an empty cart or without a table; otherwise
      the request names the table and carries every cart entry, in order,
      with all its units. */
  lemma SubmissionRules(s: Screen)
    ensures var r := Submission(s);
      && (r.Failure? <==> |s.cart| == 0 || s.tableNumber.None? || s.tableNumber.value == "")
      && (|s.cart| == 0 ==> r == Failure(EmptyCartMessage))
      && (r.Success? ==>
            r.value.tableNumber == s.tableNumber.value
            && |r.value.items| == |s.cart|
            && (forall k :: 0 <= k < |s.cart| ==>
                  r.value.items[k].menuItemId == s.cart[k].menuItemId && r.value.items[k].quantity == s.cart[k].quantity)
            && LineUnits(r.value.items) == TotalItems(s.cart))
  {
    if Submission(s).Success? {
      LinesUnits(s.cart);
    }
  }

  lemma {:induction false} LinesUnits(cart: seq<CartItem>)
    ensures LineUnits(Lines(cart)) == TotalItems(cart)
  {
    if |cart| > 0 {
      LinesUnits(cart[1..]);
      assert Lines(cart)[1..] == Lines(cart[1..]);
    }
  }

  /** An accepted order clears the cart and the table; a refused or failed
      one leaves the screen as it was. */
  lemma AfterSubmitRules(s: Screen, accepted: bool)
    ensures var s' := AfterSubmit(s, accepted);
      && (Submission(s).Success? && accepted ==> s'.cart == [] && s'.tableNumber.None? && Submission(s').Failure?)
      && (Submission(s).Failure? || !accepted ==> s' == s)
  {
  }

  // ---------------------------------------------------------------------
  // Category tabs
  // ---------------------------------------------------------------------

  /** Strict order on strings by code unit, shorter prefix first. */
  predicate Before(a: string, b: string)
  {
    if |a| == 0 then |b| > 0
    else if |b| == 0 then false
    else if a[0] == b[0] then Before(a[1..], b[1..])
    else a[0] < b[0]
  }

  lemma {:induction false} BeforeIrreflexive(a: string)
    ensures !Before(a, a)
  {
    if |a| > 0 {
      BeforeIrreflexive(a[1..]);
    }
  }

  lemma {:induction false} BeforeTransitive(a: string, b: string, c: string)
    requires Before(a, b) && Before(b, c)
    ensures Before(a, c)
  {
    if |a| > 0 && |b| > 0 && |c| > 0 && a[0] == b[0] && b[0] == c[0] {
      BeforeTransitive(a[1..], b[1..], c[1..]);
    }
  }

  lemma {:induction false} BeforeTotal(a: string, b: string)
    ensures a == b || Before(a, b) || Before(b, a)
  {
    if |a| > 0 && |b| > 0 && a[0] == b[0] {
      BeforeTotal(a[1..], b[1..]);
      if a[1..] == b[1..] {
        assert a == [a[0]] + a[1..] && b == [b[0]] + b[1..];
      }
    }
  }

  /** Strictly increasing names: sorted and without duplicates. */
  predicate SortedNames(ns: seq<string>)
  {
    forall i, j :: 0 <= i < j < |ns| ==> Before(ns[i], ns[j])
  }

  /** `n` placed into a sorted list of names, unless already there. */
  function InsertName(ns: seq<string>, n: string): (r: seq<string>)
    requires SortedNames(ns)
    ensures SortedNames(r)
    ensures forall m :: m in r <==> m in ns || m == n
  {
    if |ns| == 0 then [n]
    else if n == ns[0] then ns
    else if Before(n, ns[0]) then
      assert forall k :: 0 <= k < |ns| ==> Before(n, ns[k]) by {
        forall k | 0 < k < |ns| ensures Before(n, ns[k]) {
          BeforeTransitive(n, ns[0], ns[k]);
        }
      }
      [n] + ns
    else
      var rest := InsertName(ns[1..], n);
      BeforeTotal(n, ns[0]);
      assert forall m :: m in rest ==> Before(ns[0], m) by {
        forall m | m in rest ensures Before(ns[0], m) {
          if m != n {
            var k :| 0 <= k < |ns[1..]| && ns[1..][k] == m;
            assert ns[k + 1] == m;
          }
        }
      }
      [ns[0]] + rest
  }

  /** `Array.from(new Set(names)).sort(...)`: the distinct names in order. */
  function SortedDistinctNames(ns: seq<string>): (r: seq<string>)
    ensures SortedNames(r)
    ensures forall m :: m in r <==> m in ns
  {
    if |ns| == 0 then []
    else
      var init := ns[..|ns| - 1];
      assert ns == init + [ns[|ns| - 1]];
      InsertName(SortedDistinctNames(init), ns[|ns| - 1])
  }

  /** The category of every menu item. */
  function ItemCategories(items: seq<MenuEntry>): (cs: seq<string>)
    ensures |cs| == |items| && forall k :: 0 <= k < |items| ==> cs[k] == items[k].category
  {
    if |items| == 0 then [] else [items[0].category] + ItemCategories(items[1..])
  }

  /** The tabs: "All", then each category of the menu once, sorted. */
  function Categories(items: seq<MenuEntry>): seq<string>
  {
    ["All"] + SortedDistinctNames(ItemCategories(items))
  }

  /** The tabs start with "All"; the rest are sorted, without duplicates,
      and are exactly the categories some menu item has. */
  lemma CategoriesRules(items: seq<MenuEntry>, c: string)
    ensures var tabs := Categories(items);
      && |tabs| >= 1 && tabs[0] == "All"
      && SortedNames(tabs[1..])
      && (c in tabs[1..] <==> exists k :: 0 <= k < |items| && items[k].category == c)
  {
    var tabs := Categories(items);
    assert tabs[1..] == SortedDistinctNames(ItemCategories(items));
    if exists k :: 0 <= k < |items| && items[k].category == c {
      var k :| 0 <= k < |items| && items[k].category == c;
      assert ItemCategories(items)[k] == c;
    }
  }

  /** The item belongs to the category. */
  function InCategory(category: string): MenuEntry -> bool
  {
    (i: MenuEntry) => i.category == category
  }

  /** The items shown under the active tab. */
  function FilteredItems(items: seq<MenuEntry>, active: string): seq<MenuEntry>
  {
    if active == "All" then items else Filter(items, InCategory(active))
  }

  /** "All" shows the whole menu; any other tab shows exactly the items of
      its category, in menu order. */
  lemma FilteredItemsRules(items: seq<MenuEntry>, active: string)
    ensures active == "All" ==> FilteredItems(items, active) == items
    ensures active != "All" ==> forall i :: i in FilteredItems(items, active) <==> i in items && i.category == active
    ensures active != "All" ==>
      KeptAt(items, FilteredItems(items, active), InCategory(active), FilterPositions(items, InCategory(active)))
  {
  }
}
