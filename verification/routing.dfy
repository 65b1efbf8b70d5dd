/**
 * The category-to-department rule that both the order-creation handler
 * (backend/src/routes/waiter.ts, `getItemRole`) and the station ticket
 * query (backend/src/routes/kitchen.ts) apply to every order line:
 * trim and lower-case the line's category, look it up in the map built
 * from the settings' categories, and when it is not there fall back to a
 * keyword test (bar when the category contains one of ten drink words,
 * kitchen otherwise).
 *
 * The handlers keep the map in a plain JavaScript object, so a lookup
 * also sees the properties every object inherits. `ItemRoleAsWritten`
 * models that; `ItemRole` is the own-property lookup the rest of the
 * model uses.
 */
module Routing {
  import opened Common
  import opened OrderModel
  import opened SettingsModel
  import opened Realtime

  type CategoryRoles = map<string, Department>

  /** `(category || '').trim().toLowerCase()`. */
  function RoleKey(category: string): string
  {
    ToLower(Trim(category))
  }

  /** The category-role map built from the settings' categories: entries
      with an empty name are skipped, and a later entry with the same key
      overrides an earlier one. */
  function CategoryRoleMap(cats: seq<Category>): CategoryRoles
  {
    if |cats| == 0 then map[]
    else
      var m := CategoryRoleMap(cats[..|cats| - 1]);
      var c := cats[|cats| - 1];
      if c.name == "" then m else m[RoleKey(c.name) := c.role]
  }

  /** The loop that fills the category-role object from the settings'
      categories. */
  method BuildCategoryRoles(cats: seq<Category>) returns (roles: CategoryRoles)
    ensures roles == CategoryRoleMap(cats)
  {
    roles := map[];
    var i := 0;
    while i < |cats|
      invariant 0 <= i <= |cats|
      invariant roles == CategoryRoleMap(cats[..i])
    {
      assert cats[..i + 1][..i] == cats[..i];
      var c := cats[i];
      if c.name != "" {
        roles := roles[RoleKey(c.name) := c.role];
      }
      i := i + 1;
    }
    assert cats[..i] == cats;
  }

  /** No settings document gives the empty map. */
  function RolesOf(settings: Option<SettingsDoc>): CategoryRoles
  {
    if settings.Some? then CategoryRoleMap(settings.value.categories) else map[]
  }

  /** The category-role map built from the settings document; none gives
      the empty map. */
  method SettingsRoles(settings: Option<SettingsDoc>) returns (roles: CategoryRoles)
    ensures roles == RolesOf(settings)
  {
    if settings.Some? {
      roles := BuildCategoryRoles(settings.value.categories);
    } else {
      roles := map[];
    }
  }

  const BarKeywords: seq<string> :=
    ["drink", "beer", "wine", "alcohol", "cocktail", "juice", "water", "soda", "tea", "coffee"]

  predicate HasBarKeyword(key: string)
  {
    exists k :: 0 <= k < |BarKeywords| && Contains(key, BarKeywords[k])
  }

  function FallbackRole(key: string): Department
  {
    if HasBarKeyword(key) then Bar else Kitchen
  }

  /** The department a line with this category is routed to. */
  function ItemRole(roles: CategoryRoles, category: string): Department
  {
    var key := RoleKey(category);
    if key in roles then roles[key] else FallbackRole(key)
  }

  /** The properties of Object.prototype whose names are already trimmed
      and lower case, so that a routing key can equal them: "constructor"
      (the Object function) and "__proto__" (Object.prototype itself). Both
      values are truthy and neither is 'kitchen' nor 'bar'. */
  const InheritedKey: string := "constructor"
  const ProtoKey: string := "__proto__"

  /** `getItemRole` as written.  An unmapped "constructor" category yields
      the inherited Object function.  Assigning a string to "__proto__"
      goes through the prototype setter, which ignores it, so no own entry
      is ever made for that key: a "__proto__" category always yields
      Object.prototype, mapped in the settings or not.  Either way the
      role is neither 'kitchen' nor 'bar' (None). */
  function ItemRoleAsWritten(roles: CategoryRoles, category: string): Option<Department>
  {
    var key := RoleKey(category);
    if key == ProtoKey then None
    else if key in roles then Some(roles[key])
    else if key == InheritedKey then None
    else Some(FallbackRole(key))
  }

  /** An explicit mapping always wins over the keyword fallback. */
  lemma MappingWins(roles: CategoryRoles, category: string)
    requires RoleKey(category) in roles
    ensures ItemRole(roles, category) == roles[RoleKey(category)]
  {
  }

  /** Without a mapping, a line goes to the bar exactly when its key
      contains one of the ten bar keywords. */
  lemma FallbackRule(roles: CategoryRoles, category: string)
    requires RoleKey(category) !in roles
    ensures ItemRole(roles, category) == Bar <==> HasBarKeyword(RoleKey(category))
  {
  }

  /** The routing key ignores surrounding whitespace and letter case. */
  lemma RoleKeyNormalises(category: string)
    ensures RoleKey(" " + category) == RoleKey(category)
    ensures RoleKey(ToLower(category)) == RoleKey(category)
  {
    TrimLeadingSpace(category);
    assert " " + category == [' '] + category;
    ToLowerTrim(category);
    ToLowerIdempotent(Trim(category));
  }

  lemma ToLowerTrim(s: string)
    ensures Trim(ToLower(s)) == ToLower(Trim(s))
  {
    TrimStartToLower(s);
    TrimEndToLower(TrimStart(s));
  }

  /** Lower-casing neither makes nor unmakes whitespace. */
  lemma LowerCharSpace(c: char)
    ensures IsSpace(LowerChar(c)) <==> IsSpace(c)
  {
  }

  lemma TrimStartToLower(s: string)
    ensures TrimStart(ToLower(s)) == ToLower(TrimStart(s))
  {
    LeadingSpacesToLower(s);
    var n := LeadingSpaces(s);
    assert ToLower(s)[n..] == ToLower(s[n..]);
  }

  lemma {:induction false} LeadingSpacesToLower(s: string)
    ensures LeadingSpaces(ToLower(s)) == LeadingSpaces(s)
  {
    if |s| > 0 {
      assert ToLower(s)[1..] == ToLower(s[1..]);
      LowerCharSpace(s[0]);
      LeadingSpacesToLower(s[1..]);
    }
  }

  lemma {:induction false} TrimEndToLower(s: string)
    ensures TrimEnd(ToLower(s)) == ToLower(TrimEnd(s))
  {
    if |s| > 0 {
      assert ToLower(s)[..|s| - 1] == ToLower(s[..|s| - 1]);
      LowerCharSpace(s[|s| - 1]);
      TrimEndToLower(s[..|s| - 1]);
    }
  }

  /** A category that contributes `key` to the category-role map. */
  predicate NamesKey(c: Category, key: string)
  {
    c.name != "" && RoleKey(c.name) == key
  }

  /** The position of the last category that contributes `key`, or -1. */
  function LastNamed(cats: seq<Category>, key: string): (j: int)
    ensures -1 <= j < |cats|
    ensures j >= 0 ==> NamesKey(cats[j], key)
    ensures forall j' :: j < j' < |cats| ==> !NamesKey(cats[j'], key)
  {
    if |cats| == 0 then -1
    else if NamesKey(cats[|cats| - 1], key) then |cats| - 1
    else
      var init := cats[..|cats| - 1];
      var j := LastNamed(init, key);
      assert forall j' :: j < j' < |cats| ==> j' == |cats| - 1 || cats[j'] == init[j'];
      j
  }

  /** The map holds a key exactly when some named category produces it, and
      its value is the role of the last such category. */
  lemma {:induction false} CategoryRoleMapLastWins(cats: seq<Category>, key: string)
    ensures key in CategoryRoleMap(cats) <==> LastNamed(cats, key) >= 0
    ensures key in CategoryRoleMap(cats) ==> CategoryRoleMap(cats)[key] == cats[LastNamed(cats, key)].role
  {
    if |cats| > 0 {
      CategoryRoleMapLastWins(cats[..|cats| - 1], key);
    }
  }

  /** As written, the lookup fails to route a line to either department
      exactly when its key is "__proto__", or "constructor" without a
      mapping; otherwise it agrees with the own-property lookup. */
  lemma AsWrittenDiffersOnlyOnInheritedKey(roles: CategoryRoles, category: string)
    ensures ItemRoleAsWritten(roles, category) == None
        <==> RoleKey(category) == ProtoKey || (RoleKey(category) !in roles && RoleKey(category) == InheritedKey)
    ensures ItemRoleAsWritten(roles, category) != None
        ==> ItemRoleAsWritten(roles, category) == Some(ItemRole(roles, category))
  {
  }

  /** A string that lacks a character of `sub` cannot contain `sub`. */
  lemma MissingCharNotContained(s: string, sub: string, c: char)
    requires c in sub && c !in s
    ensures !Contains(s, sub)
  {
  }

  /** Lower-casing leaves a string without capital letters unchanged. */
  lemma ToLowerNoCapitals(s: string)
    requires forall i :: 0 <= i < |s| ==> !('A' <= s[i] <= 'Z')
    ensures ToLower(s) == s
  {
  }

  lemma InheritedKeyIsKey()
    ensures RoleKey(InheritedKey) == InheritedKey
  {
    var k := InheritedKey;
    assert Trimmed(k);
    TrimFixed(k);
    assert Trim(k) == k;
    ToLowerNoCapitals(k);
  }

  /** None of the ten bar keywords occurs in "constructor": each has a
      letter that "constructor" lacks. */
  lemma InheritedKeyNotBar()
    ensures !HasBarKeyword(InheritedKey)
  {
    var key := InheritedKey;
    assert 'a' !in key && 'b' !in key && 'd' !in key && 'f' !in key && 'j' !in key && 'w' !in key;
    NoBarLetters(key);
  }

  lemma ProtoKeyIsKey()
    ensures RoleKey(ProtoKey) == ProtoKey
  {
    var k := ProtoKey;
    assert Trimmed(k);
    TrimFixed(k);
    assert Trim(k) == k;
    ToLowerNoCapitals(k);
  }

  /** No bar keyword occurs in "__proto__" either. */
  lemma ProtoKeyNotBar()
    ensures !HasBarKeyword(ProtoKey)
  {
    var key := ProtoKey;
    assert 'a' !in key && 'b' !in key && 'd' !in key && 'f' !in key && 'j' !in key && 'w' !in key;
    NoBarLetters(key);
  }

  /** A key without any of the letters a, b, d, f, j and w holds no bar
      keyword: each keyword has one of them. */
  lemma NoBarLetters(key: string)
    requires 'a' !in key && 'b' !in key && 'd' !in key && 'f' !in key && 'j' !in key && 'w' !in key
    ensures !HasBarKeyword(key)
  {
    forall k | 0 <= k < |BarKeywords| ensures !Contains(key, BarKeywords[k]) {
      var c := if k == 0 then 'd' else if k == 1 then 'b' else if k == 2 || k == 6 then 'w'
               else if k == 5 then 'j' else if k == 9 then 'f' else 'a';
      MissingCharNotContained(key, BarKeywords[k], c);
    }
  }

  /** The counterexample: with no category mapped, a line whose category is
      "constructor" goes neither to the kitchen nor to the bar as written,
      while the own-property lookup sends it to the kitchen. */
  lemma ConstructorCategoryUnrouted()
    ensures ItemRoleAsWritten(map[], InheritedKey) == None
    ensures ItemRole(map[], InheritedKey) == Kitchen
  {
    InheritedKeyIsKey();
    InheritedKeyNotBar();
  }

  // -------------------------------------------------------------------
  // Station tickets: the lines of an order that one department prepares
  // -------------------------------------------------------------------

  /** The department of every line of an order, in order. */
  function LineDepartments(items: seq<OrderItem>, roles: CategoryRoles): (ds: seq<Department>)
    ensures |ds| == |items|
    ensures forall k :: 0 <= k < |items| ==> ds[k] == ItemRole(roles, items[k].category)
  {
    if |items| == 0 then []
    else LineDepartments(items[..|items| - 1], roles) + [ItemRole(roles, items[|items| - 1].category)]
  }

  /** The ticket line for position `k` of the order: its position, name,
      quantity and prepared flag, and no price. */
  function TicketLineAt(items: seq<OrderItem>, k: nat): TicketLine
    requires k < |items|
  {
    TicketLine(k, items[k].name, items[k].quantity, items[k].prepared)
  }

  /** The ticket lines of the positions whose department is `dept`, in order. */
  function Pick(items: seq<OrderItem>, ds: seq<Department>, dept: Department): seq<TicketLine>
    requires |ds| == |items|
  {
    if |items| == 0 then []
    else
      var k := |items| - 1;
      Pick(items[..k], ds[..k], dept) + (if ds[k] == dept then [TicketLineAt(items, k)] else [])
  }

  /** The lines of `items` routed to `dept`. */
  function StationLines(items: seq<OrderItem>, roles: CategoryRoles, dept: Department): seq<TicketLine>
  {
    Pick(items, LineDepartments(items, roles), dept)
  }

  /** Every picked line is the ticket line of a position with that department. */
  lemma {:induction false} PickSound(items: seq<OrderItem>, ds: seq<Department>, dept: Department)
    requires |ds| == |items|
    ensures forall l :: l in Pick(items, ds, dept) ==>
      l.index < |items| && ds[l.index] == dept && l == TicketLineAt(items, l.index)
  {
    if |items| > 0 {
      var k := |items| - 1;
      PickSound(items[..k], ds[..k], dept);
      forall p | 0 <= p < k
        ensures items[..k][p] == items[p] && ds[..k][p] == ds[p]
      {
      }
    }
  }

  /** Every position with that department is picked. */
  lemma {:induction false} PickComplete(items: seq<OrderItem>, ds: seq<Department>, dept: Department, p: int)
    requires |ds| == |items| && 0 <= p < |items| && ds[p] == dept
    ensures TicketLineAt(items, p) in Pick(items, ds, dept)
  {
    var k := |items| - 1;
    if p < k {
      PickComplete(items[..k], ds[..k], dept, p);
      assert TicketLineAt(items[..k], p) == TicketLineAt(items, p);
    }
  }

  /** Picked lines come in increasing position order. */
  lemma {:induction false} PickOrdered(items: seq<OrderItem>, ds: seq<Department>, dept: Department)
    requires |ds| == |items|
    ensures forall a, b :: 0 <= a < b < |Pick(items, ds, dept)| ==>
      Pick(items, ds, dept)[a].index < Pick(items, ds, dept)[b].index
  {
    if |items| > 0 {
      var k := |items| - 1;
      PickOrdered(items[..k], ds[..k], dept);
      PickSound(items[..k], ds[..k], dept);
      var prev := Pick(items[..k], ds[..k], dept);
      assert forall a :: 0 <= a < |prev| ==> prev[a] in prev;
    }
  }

  /** The two departments' picks share out the whole order. */
  lemma {:induction false} PickPartition(items: seq<OrderItem>, ds: seq<Department>)
    requires |ds| == |items|
    ensures |Pick(items, ds, Kitchen)| + |Pick(items, ds, Bar)| == |items|
  {
    if |items| > 0 {
      PickPartition(items[..|items| - 1], ds[..|ds| - 1]);
    }
  }

  /** A station's ticket holds exactly the lines routed to it, each as the
      ticket line of its own position, in increasing position order; the
      kitchen and bar tickets together hold every line exactly once. */
  lemma StationLinesExact(items: seq<OrderItem>, roles: CategoryRoles, dept: Department)
    ensures forall l :: l in StationLines(items, roles, dept) ==>
      l.index < |items| && ItemRole(roles, items[l.index].category) == dept && l == TicketLineAt(items, l.index)
    ensures forall p :: 0 <= p < |items| && ItemRole(roles, items[p].category) == dept ==>
      TicketLineAt(items, p) in StationLines(items, roles, dept)
    ensures forall a, b :: 0 <= a < b < |StationLines(items, roles, dept)| ==>
      StationLines(items, roles, dept)[a].index < StationLines(items, roles, dept)[b].index
    ensures |StationLines(items, roles, Kitchen)| + |StationLines(items, roles, Bar)| == |items|
  {
    var ds := LineDepartments(items, roles);
    PickSound(items, ds, dept);
    forall p | 0 <= p < |items| && ItemRole(roles, items[p].category) == dept
      ensures TicketLineAt(items, p) in StationLines(items, roles, dept)
    {
      PickComplete(items, ds, dept, p);
    }
    PickOrdered(items, ds, dept);
    PickPartition(items, ds);
  }

  /** StationLines with the lookup as written: a line is kept when the
      lookup yields `dept`, so a line the lookup routes nowhere is in
      neither station's ticket. */
  function StationLinesAsWritten(items: seq<OrderItem>, roles: CategoryRoles, dept: Department): seq<TicketLine>
  {
    if |items| == 0 then []
    else
      var k := |items| - 1;
      StationLinesAsWritten(items[..k], roles, dept)
        + (if ItemRoleAsWritten(roles, items[k].category) == Some(dept) then [TicketLineAt(items, k)] else [])
  }

  /** As written, an order whose only line has the unmapped category
      "constructor" produces an empty kitchen ticket and an empty bar
      ticket, so the line is never announced to either station; the
      corrected routing sends it to the kitchen. */
  lemma ConstructorLineLost(item: OrderItem)
    requires item.category == InheritedKey
    ensures StationLinesAsWritten([item], map[], Kitchen) == []
    ensures StationLinesAsWritten([item], map[], Bar) == []
    ensures StationLines([item], map[], Kitchen) == [TicketLineAt([item], 0)]
  {
    ConstructorCategoryUnrouted();
    UnroutedSingleLine(item, map[], Kitchen);
    UnroutedSingleLine(item, map[], Bar);
    ConstructorLineToKitchen(item);
  }

  /** A one-line order whose line the lookup as written routes nowhere
      yields an empty ticket. */
  lemma UnroutedSingleLine(item: OrderItem, roles: CategoryRoles, dept: Department)
    requires ItemRoleAsWritten(roles, item.category) == None
    ensures StationLinesAsWritten([item], roles, dept) == []
  {
    assert [item][..0] == [];
  }

  /** The second counterexample: a line whose category is "__proto__" goes
      to neither station as written, even when the settings map that
      category to a station, while the own-property lookup sends it to the
      mapped station, or to the kitchen when there is no mapping. */
  lemma ProtoCategoryUnrouted(roles: CategoryRoles)
    ensures ItemRoleAsWritten(roles, ProtoKey) == None
    ensures ItemRole(roles, ProtoKey) == if ProtoKey in roles then roles[ProtoKey] else Kitchen
  {
    ProtoKeyIsKey();
    ProtoKeyNotBar();
  }

  /** As written, an order whose only line has the category "__proto__"
      produces two empty tickets whatever the settings say; the corrected
      routing gives the line to the station its mapping names, or to the
      kitchen without one. */
  lemma ProtoLineLost(item: OrderItem, roles: CategoryRoles)
    requires item.category == ProtoKey
    ensures StationLinesAsWritten([item], roles, Kitchen) == []
    ensures StationLinesAsWritten([item], roles, Bar) == []
    ensures var dept := if ProtoKey in roles then roles[ProtoKey] else Kitchen;
      StationLines([item], roles, dept) == [TicketLineAt([item], 0)]
  {
    ProtoCategoryUnrouted(roles);
    UnroutedSingleLine(item, roles, Kitchen);
    UnroutedSingleLine(item, roles, Bar);
    ProtoLineRouted(item, roles);
  }

  /** With the own-property lookup the "__proto__" line reaches a station. */
  lemma ProtoLineRouted(item: OrderItem, roles: CategoryRoles)
    requires item.category == ProtoKey
    ensures var dept := if ProtoKey in roles then roles[ProtoKey] else Kitchen;
      StationLines([item], roles, dept) == [TicketLineAt([item], 0)]
  {
    ProtoCategoryUnrouted(roles);
    var dept := if ProtoKey in roles then roles[ProtoKey] else Kitchen;
    assert [item][..0] == [];
    var ds := LineDepartments([item], roles);
    assert ds == [dept];
    assert ds[..0] == [];
    assert Pick([item], ds, dept) == Pick([item][..0], ds[..0], dept) + [TicketLineAt([item], 0)];
  }

  /** With the own-property lookup the "constructor" line is the kitchen's. */
  lemma ConstructorLineToKitchen(item: OrderItem)
    requires item.category == InheritedKey
    ensures StationLines([item], map[], Kitchen) == [TicketLineAt([item], 0)]
  {
    ConstructorCategoryUnrouted();
    assert [item][..0] == [];
    var ds := LineDepartments([item], map[]);
    assert ds == [Kitchen];
    assert ds[..0] == [];
    assert Pick([item], ds, Kitchen) == Pick([item][..0], ds[..0], Kitchen) + [TicketLineAt([item], 0)];
  }
}
