/**
 * The list-maintenance part of the admin routes
 * (backend/src/routes/admin.ts): the categories and halls of the
 * settings document, the staff accounts, and the creation and deletion of
 * inventory items.
 *
 * Every handler is a method on `Store.Db` proved against a function from
 * the World before the request to the World after it and the response.
 * Request-body fields that JavaScript tests for truthiness are strings
 * whose empty value means "absent"; fields tested against `undefined` or
 * typed enums are `Option`s.
 */
module AdminRoutes {
  import opened Common
  import opened MenuModel
  import opened InventoryModel
  import opened SettingsModel
  import opened UserModel
  import opened Store

  const CategoryRequired: string := "Category name is required."
  const CategoryExists: string := "Category already exists."
  const CategoryNamesRequired: string := "Old name and new name are required."
  const CategoryNotFound: string := "Category not found."
  const SettingsNotFound: string := "Settings not found."
  const HallRequired: string := "Hall name is required."
  const HallExists: string := "Hall already exists."
  const OldNameRequired: string := "Old name is required."
  const HallNotFound: string := "Hall not found."
  const UserFieldsRequired: string := "Username, password, and role are required."
  const UsernameExists: string := "Username already exists."
  const UserNotFound: string := "User not found."
  const SelfDeactivation: string := "You cannot deactivate your own account."
  const LastAdmin: string := "Cannot delete the last admin user."
  const UserDeleted: string := "User deleted successfully."
  const InventoryNameRequired: string := "Inventory item name is required."
  const InventoryNotFound: string := "Inventory item not found."
  const InventoryDeleted: string := "Inventory item deleted successfully."

  // ---------------------------------------------------------------------
  // List helpers: findIndex and distinct names
  // ---------------------------------------------------------------------

  /** The position of the first occurrence of `n`, or -1: `findIndex` on
      the names. */
  function IndexOf(ns: seq<string>, n: string): (i: int)
    ensures -1 <= i < |ns|
    ensures i == -1 <==> n !in ns
    ensures i >= 0 ==> ns[i] == n && forall j :: 0 <= j < i ==> ns[j] != n
  {
    if |ns| == 0 then -1
    else if ns[0] == n then 0
    else
      var j := IndexOf(ns[1..], n);
      if j < 0 then -1 else j + 1
  }

  /** No name occurs twice. */
  predicate Distinct(ns: seq<string>)
  {
    forall i, j :: 0 <= i < j < |ns| ==> ns[i] != ns[j]
  }

  /** Appending a name not yet present keeps the names distinct. */
  lemma AppendKeepsDistinct(ns: seq<string>, n: string)
    requires Distinct(ns) && n !in ns
    ensures Distinct(ns + [n])
  {
  }

  /** The stored settings document, or the default one `new Settings({})`
      makes when there is none. */
  function SettingsOrDefault(settings: Option<SettingsDoc>): SettingsDoc
  {
    if settings.Some? then settings.value else DefaultSettings
  }

  /** Settings that are stored pass their validators, and so do the
      defaults. */
  lemma SettingsOrDefaultValid(w: World)
    requires ValidWorld(w)
    ensures ValidSettings(SettingsOrDefault(w.settings))
  {
    DefaultSettingsValid();
  }

  // ---------------------------------------------------------------------
  // Categories
  // ---------------------------------------------------------------------

  /** The filter of a category delete: entries named otherwise. */
  function OtherCategory(name: string): Category -> bool
  {
    (c: Category) => c.name != name
  }

  /** The menu with every item of category `from` moved to `to`:
      `MenuItem.updateMany({ category: from }, { $set: { category: to } })`. */
  function Recategorised(menu: map<MenuId, MenuItem>, from: string, to: string): map<MenuId, MenuItem>
  {
    map id | id in menu :: if menu[id].category == from then menu[id].(category := to) else menu[id]
  }

  /** POST /api/admin/settings/categories. */
  function CategoryAdd(w: World, name: string, role: Option<Department>): (World, Result<SettingsDoc, ApiError>)
  {
    if IsBlank(name) then (w, Failure(BadRequest(CategoryRequired)))
    else
      var s := SettingsOrDefault(w.settings);
      if Trim(name) in CategoryNames(s.categories) then (w, Failure(Conflict(CategoryExists)))
      else
        var s' := s.(categories := s.categories + [NewCategory(name, role)]);
        (w.(settings := Some(s')), Success(s'))
  }

  /** PUT /api/admin/settings/categories. */
  function CategoryEdit(w: World, oldName: string, newName: string, role: Option<Department>)
    : (World, Result<SettingsDoc, ApiError>)
  {
    if oldName == "" || IsBlank(newName) then (w, Failure(BadRequest(CategoryNamesRequired)))
    else if w.settings.None? then (w, Failure(NotFound(SettingsNotFound)))
    else
      var s := w.settings.value;
      var idx := IndexOf(CategoryNames(s.categories), oldName);
      if idx < 0 then (w, Failure(NotFound(CategoryNotFound)))
      else
        var c := Category(Trim(newName), if role.Some? then role.value else s.categories[idx].role);
        var s' := s.(categories := s.categories[idx := c]);
        var menu := if oldName != Trim(newName) then Recategorised(w.menu, oldName, Trim(newName)) else w.menu;
        (w.(settings := Some(s'), menu := menu), Success(s'))
  }

  /** DELETE /api/admin/settings/categories. */
  function CategoryDelete(w: World, name: string): (World, Result<SettingsDoc, ApiError>)
  {
    if name == "" then (w, Failure(BadRequest(CategoryRequired)))
    else if w.settings.None? then (w, Failure(NotFound(SettingsNotFound)))
    else
      var s := w.settings.value;
      var s' := s.(categories := Filter(s.categories, OtherCategory(name)));
      (w.(settings := Some(s')), Success(s'))
  }

  /** Adding a category fails, changing nothing, exactly when the name is
      blank (400) or its trimmed form is already a category (409); otherwise
      the trimmed name is appended with the given role or kitchen, every
      earlier entry stays, and nothing else changes. */
  lemma CategoryAddRules(w: World, name: string, role: Option<Department>)
    ensures var (w', r) := CategoryAdd(w, name, role);
      var before := SettingsOrDefault(w.settings).categories;
      && (r.Failure? <==> IsBlank(name) || Trim(name) in CategoryNames(before))
      && (r.Failure? ==> w' == w)
      && (r.Failure? && Status(r.error) == 400 <==> IsBlank(name))
      && (r.Success? ==>
            && w' == w.(settings := Some(r.value))
            && r.value.tableCount == SettingsOrDefault(w.settings).tableCount
            && r.value.halls == SettingsOrDefault(w.settings).halls
            && |r.value.categories| == |before| + 1
            && r.value.categories[..|before|] == before
            && r.value.categories[|before|].name == Trim(name)
            && r.value.categories[|before|].role == (if role.Some? then role.value else Kitchen))
  {
    var (w', r) := CategoryAdd(w, name, role);
    if r.Success? {
      var before := SettingsOrDefault(w.settings).categories;
      assert r.value.categories[..|before|] == before;
    }
  }

  /** Adding a category keeps the category names distinct when they were
      distinct before. The store does not guarantee that they are: the
      schema has no uniqueness rule and a rename is not checked against
      the other names, so this holds only for lists already distinct. */
  lemma CategoryAddKeepsDistinct(w: World, name: string, role: Option<Department>)
    requires Distinct(CategoryNames(SettingsOrDefault(w.settings).categories))
    ensures Distinct(CategoryNames(SettingsOrDefault(CategoryAdd(w, name, role).0.settings).categories))
  {
    var before := SettingsOrDefault(w.settings).categories;
    if CategoryAdd(w, name, role).1.Success? {
      var c := NewCategory(name, role);
      assert (before + [c])[..|before|] == before;
      assert CategoryNames(before + [c]) == CategoryNames(before) + [c.name];
      AppendKeepsDistinct(CategoryNames(before), c.name);
    }
  }

  /** Removing by name a category appended to a list without that name
      gives back the list. */
  lemma DeleteUndoesAddCategory(cs: seq<Category>, c: Category)
    requires c.name !in CategoryNames(cs)
    ensures Filter(cs + [c], OtherCategory(c.name)) == cs
  {
    var keep := OtherCategory(c.name);
    forall x | x in cs ensures keep(x) {
      var k :| 0 <= k < |cs| && cs[k] == x;
      assert CategoryNames(cs)[k] == x.name;
    }
    FilterAppend(cs, [c], keep);
    FilterKeepsAll(cs, keep);
    assert [c][1..] == [];
  }

  /** Deleting a category just added gives back the category list as it was
      before the add. */
  lemma CategoryAddThenDelete(w: World, name: string, role: Option<Department>)
    requires CategoryAdd(w, name, role).1.Success?
    ensures var w' := CategoryAdd(w, name, role).0;
      CategoryDelete(w', Trim(name)).0.settings.value.categories == SettingsOrDefault(w.settings).categories
  {
    DeleteUndoesAddCategory(SettingsOrDefault(w.settings).categories, NewCategory(name, role));
  }

  /** Editing a category fails, changing nothing, exactly when a name is
      missing or blank (400), there is no settings document or no category
      called `oldName` (404). Otherwise the first category called `oldName`
      is replaced in place by the trimmed new name with the given role or
      its old one, no other category changes, and apart from the menu
      cascade nothing else in the store changes. */
  lemma CategoryEditRules(w: World, oldName: string, newName: string, role: Option<Department>)
    ensures var (w', r) := CategoryEdit(w, oldName, newName, role);
      && (r.Failure? <==>
            oldName == "" || IsBlank(newName) || w.settings.None?
            || oldName !in CategoryNames(w.settings.value.categories))
      && (r.Failure? ==> w' == w)
      && (r.Failure? && Status(r.error) == 400 <==> oldName == "" || IsBlank(newName))
      && (r.Success? ==>
            var cs := w.settings.value.categories;
            var idx := IndexOf(CategoryNames(cs), oldName);
            && w'.settings == Some(r.value)
            && 0 <= idx < |cs| && cs[idx].name == oldName
            && (forall j :: 0 <= j < idx ==> cs[j].name != oldName)
            && |r.value.categories| == |cs|
            && r.value.categories[idx] == Category(Trim(newName), if role.Some? then role.value else cs[idx].role)
            && (forall j :: 0 <= j < |cs| && j != idx ==> r.value.categories[j] == cs[j])
            && r.value.halls == w.settings.value.halls
            && r.value == w.settings.value.(categories := r.value.categories)
            && w' == w.(settings := Some(r.value), menu := w'.menu)
            && w'.users == w.users && w'.inventory == w.inventory && w'.orders == w.orders)
  {
  }

  /** After a successful edit every menu item that was in `oldName` is in
      the trimmed new name; every other menu item is unchanged, and so is
      the rest of every moved item. */
  lemma CategoryEditCascade(w: World, oldName: string, newName: string, role: Option<Department>)
    requires CategoryEdit(w, oldName, newName, role).1.Success?
    ensures var menu' := CategoryEdit(w, oldName, newName, role).0.menu;
      && menu'.Keys == w.menu.Keys
      && (forall id :: id in w.menu && w.menu[id].category == oldName ==>
            menu'[id] == w.menu[id].(category := Trim(newName)))
      && (forall id :: id in w.menu && w.menu[id].category != oldName ==> menu'[id] == w.menu[id])
  {
  }

  /** Deleting a category fails, changing nothing, exactly when the name is
      missing (400) or there is no settings document (404); otherwise the
      categories kept are exactly those named otherwise, each as often as
      before and in their original order. */
  lemma CategoryDeleteRules(w: World, name: string)
    ensures var (w', r) := CategoryDelete(w, name);
      && (r.Failure? <==> name == "" || w.settings.None?)
      && (r.Failure? && Status(r.error) == 400 <==> name == "")
      && (r.Failure? ==> w' == w)
      && (r.Success? ==>
            && w' == w.(settings := Some(r.value))
            && r.value == w.settings.value.(categories := r.value.categories)
            && (forall c :: c in r.value.categories <==> c in w.settings.value.categories && c.name != name)
            && (forall c :: multiset(r.value.categories)[c]
                          == if c.name != name then multiset(w.settings.value.categories)[c] else 0)
            && KeptAt(w.settings.value.categories, r.value.categories, OtherCategory(name),
                      FilterPositions(w.settings.value.categories, OtherCategory(name)))
            && name !in CategoryNames(r.value.categories))
  {
    var (w', r) := CategoryDelete(w, name);
    if r.Success? {
      FilterCounts(w.settings.value.categories, OtherCategory(name));
      var cs := r.value.categories;
      forall k | 0 <= k < |cs| ensures CategoryNames(cs)[k] != name {
        assert cs[k] in cs;
      }
    }
  }

  // ---------------------------------------------------------------------
  // Halls
  // ---------------------------------------------------------------------

  /** The filter of a hall delete: entries named otherwise. */
  function OtherHall(name: string): Hall -> bool
  {
    (h: Hall) => h.name != name
  }

  /** The hall with the fields a PUT provides changed: the name when the
      new one is not blank (trimmed), the tables and type when given. */
  function EditedHall(h: Hall, newName: string, tables: Option<seq<int>>, kind: Option<HallType>): (h': Hall)
    ensures h'.name == (if IsBlank(newName) then h.name else Trim(newName))
    ensures h'.tables == (if tables.Some? then tables.value else h.tables)
    ensures h'.kind == (if kind.Some? then kind.value else h.kind)
  {
    var h1 := if IsBlank(newName) then h else h.(name := Trim(newName));
    var h2 := if tables.Some? then h1.(tables := tables.value) else h1;
    if kind.Some? then h2.(kind := kind.value) else h2
  }

  /** POST /api/admin/settings/halls. */
  function HallAdd(w: World, name: string, tables: Option<seq<int>>, kind: Option<HallType>)
    : (World, Result<SettingsDoc, ApiError>)
  {
    if IsBlank(name) then (w, Failure(BadRequest(HallRequired)))
    else
      var s := SettingsOrDefault(w.settings);
      if Trim(name) in HallNames(s.halls) then (w, Failure(Conflict(HallExists)))
      else
        var s' := s.(halls := s.halls + [NewHall(name, tables, kind)]);
        (w.(settings := Some(s')), Success(s'))
  }

  /** PUT /api/admin/settings/halls. */
  function HallEdit(w: World, oldName: string, newName: string, tables: Option<seq<int>>, kind: Option<HallType>)
    : (World, Result<SettingsDoc, ApiError>)
  {
    if oldName == "" then (w, Failure(BadRequest(OldNameRequired)))
    else if w.settings.None? then (w, Failure(NotFound(SettingsNotFound)))
    else
      var s := w.settings.value;
      var idx := IndexOf(HallNames(s.halls), oldName);
      if idx < 0 then (w, Failure(NotFound(HallNotFound)))
      else
        var s' := s.(halls := s.halls[idx := EditedHall(s.halls[idx], newName, tables, kind)]);
        (w.(settings := Some(s')), Success(s'))
  }

  /** DELETE /api/admin/settings/halls. */
  function HallDelete(w: World, name: string): (World, Result<SettingsDoc, ApiError>)
  {
    if name == "" then (w, Failure(BadRequest(HallRequired)))
    else if w.settings.None? then (w, Failure(NotFound(SettingsNotFound)))
    else
      var s := w.settings.value;
      var s' := s.(halls := Filter(s.halls, OtherHall(name)));
      (w.(settings := Some(s')), Success(s'))
  }

  /** Adding a hall fails, changing nothing, exactly when the name is blank
      (400) or its trimmed form is already a hall (409); otherwise the hall
      is appended with the trimmed name, the given tables or none and the
      given type or 'hall', and every earlier hall stays. */
  lemma HallAddRules(w: World, name: string, tables: Option<seq<int>>, kind: Option<HallType>)
    ensures var (w', r) := HallAdd(w, name, tables, kind);
      var before := SettingsOrDefault(w.settings).halls;
      && (r.Failure? <==> IsBlank(name) || Trim(name) in HallNames(before))
      && (r.Failure? ==> w' == w)
      && (r.Failure? && Status(r.error) == 400 <==> IsBlank(name))
      && (r.Success? ==>
            && w' == w.(settings := Some(r.value))
            && r.value.categories == SettingsOrDefault(w.settings).categories
            && r.value.tableCount == SettingsOrDefault(w.settings).tableCount
            && r.value == SettingsOrDefault(w.settings).(halls := r.value.halls)
            && |r.value.halls| == |before| + 1
            && r.value.halls[..|before|] == before
            && r.value.halls[|before|] == Hall(Trim(name), if tables.Some? then tables.value else [],
                                               if kind.Some? then kind.value else HallRoom))
  {
    var (w', r) := HallAdd(w, name, tables, kind);
    if r.Success? {
      var before := SettingsOrDefault(w.settings).halls;
      assert r.value.halls[..|before|] == before;
    }
  }

  /** Adding a hall keeps the hall names distinct when they were distinct
      before. As with categories, a rename can make two halls share a name,
      so this holds only for lists already distinct. */
  lemma HallAddKeepsDistinct(w: World, name: string, tables: Option<seq<int>>, kind: Option<HallType>)
    requires Distinct(HallNames(SettingsOrDefault(w.settings).halls))
    ensures Distinct(HallNames(SettingsOrDefault(HallAdd(w, name, tables, kind).0.settings).halls))
  {
    var before := SettingsOrDefault(w.settings).halls;
    if HallAdd(w, name, tables, kind).1.Success? {
      var h := NewHall(name, tables, kind);
      assert (before + [h])[..|before|] == before;
      assert HallNames(before + [h]) == HallNames(before) + [h.name];
      AppendKeepsDistinct(HallNames(before), h.name);
    }
  }

  /** Removing by name a hall appended to a list without that name gives
      back the list. */
  lemma DeleteUndoesAddHall(hs: seq<Hall>, h: Hall)
    requires h.name !in HallNames(hs)
    ensures Filter(hs + [h], OtherHall(h.name)) == hs
  {
    var keep := OtherHall(h.name);
    forall x | x in hs ensures keep(x) {
      var k :| 0 <= k < |hs| && hs[k] == x;
      assert HallNames(hs)[k] == x.name;
    }
    FilterAppend(hs, [h], keep);
    FilterKeepsAll(hs, keep);
    assert [h][1..] == [];
  }

  /** Deleting a hall just added gives back the hall list as it was. */
  lemma HallAddThenDelete(w: World, name: string, tables: Option<seq<int>>, kind: Option<HallType>)
    requires HallAdd(w, name, tables, kind).1.Success?
    ensures var w' := HallAdd(w, name, tables, kind).0;
      HallDelete(w', Trim(name)).0.settings.value.halls == SettingsOrDefault(w.settings).halls
  {
    DeleteUndoesAddHall(SettingsOrDefault(w.settings).halls, NewHall(name, tables, kind));
  }

  /** Editing a hall fails, changing nothing, exactly when `oldName` is
      missing (400), there is no settings document or no hall of that name
      (404); otherwise only the first hall called `oldName` changes, and
      only in the fields provided. */
  lemma HallEditRules(w: World, oldName: string, newName: string, tables: Option<seq<int>>, kind: Option<HallType>)
    ensures var (w', r) := HallEdit(w, oldName, newName, tables, kind);
      && (r.Failure? <==> oldName == "" || w.settings.None? || oldName !in HallNames(w.settings.value.halls))
      && (r.Failure? && Status(r.error) == 400 <==> oldName == "")
      && (r.Failure? ==> w' == w)
      && (r.Success? ==>
            var hs := w.settings.value.halls;
            var idx := IndexOf(HallNames(hs), oldName);
            && w' == w.(settings := Some(r.value))
            && r.value.categories == w.settings.value.categories
            && r.value == w.settings.value.(halls := r.value.halls)
            && 0 <= idx < |hs| && hs[idx].name == oldName
            && |r.value.halls| == |hs|
            && r.value.halls[idx].name == (if IsBlank(newName) then oldName else Trim(newName))
            && r.value.halls[idx].tables == (if tables.Some? then tables.value else hs[idx].tables)
            && r.value.halls[idx].kind == (if kind.Some? then kind.value else hs[idx].kind)
            && (forall j :: 0 <= j < |hs| && j != idx ==> r.value.halls[j] == hs[j]))
  {
  }

  /** Deleting a hall fails, changing nothing, exactly when the name is
      missing (400) or there is no settings document (404); otherwise the
      halls kept are exactly those named otherwise, each as often as before
      and in their original order. */
  lemma HallDeleteRules(w: World, name: string)
    ensures var (w', r) := HallDelete(w, name);
      && (r.Failure? <==> name == "" || w.settings.None?)
      && (r.Failure? && Status(r.error) == 400 <==> name == "")
      && (r.Failure? ==> w' == w)
      && (r.Success? ==>
            && w' == w.(settings := Some(r.value))
            && r.value == w.settings.value.(halls := r.value.halls)
            && (forall h :: h in r.value.halls <==> h in w.settings.value.halls && h.name != name)
            && (forall h :: multiset(r.value.halls)[h]
                          == if h.name != name then multiset(w.settings.value.halls)[h] else 0)
            && KeptAt(w.settings.value.halls, r.value.halls, OtherHall(name),
                      FilterPositions(w.settings.value.halls, OtherHall(name)))
            && name !in HallNames(r.value.halls))
  {
    var (w', r) := HallDelete(w, name);
    if r.Success? {
      FilterCounts(w.settings.value.halls, OtherHall(name));
      var hs := r.value.halls;
      forall k | 0 <= k < |hs| ensures HallNames(hs)[k] != name {
        assert hs[k] in hs;
      }
    }
  }

  /** Adding a category keeps the database valid. */
  lemma CategoryAddKeepsValid(w: World, name: string, role: Option<Department>)
    requires ValidWorld(w)
    ensures ValidWorld(CategoryAdd(w, name, role).0)
  {
    var (w', r) := CategoryAdd(w, name, role);
    if r.Success? {
      SettingsOrDefaultValid(w);
      TrimIdempotent(name);
      AppendCategoryValid(SettingsOrDefault(w.settings), NewCategory(name, role));
      ValidWithSettings(w, r.value);
    }
  }

  /** Appending a valid category to a valid document keeps it valid. */
  lemma AppendCategoryValid(s: SettingsDoc, c: Category)
    requires ValidSettings(s) && c.name != "" && Trimmed(c.name)
    ensures ValidSettings(s.(categories := s.categories + [c]))
  {
  }

  /** Appending a valid hall to a valid document keeps it valid. */
  lemma AppendHallValid(s: SettingsDoc, h: Hall)
    requires ValidSettings(s) && h.name != "" && Trimmed(h.name)
    ensures ValidSettings(s.(halls := s.halls + [h]))
  {
    var hs := s.halls + [h];
    forall k | 0 <= k < |hs| ensures ValidHall(hs[k]) {
      if k < |s.halls| {
        assert hs[k] == s.halls[k];
      }
    }
  }

  /** Moving menu items to another category keeps them valid. */
  lemma RecategorisedValid(menu: map<MenuId, MenuItem>, from: string, to: string)
    requires forall id :: id in menu ==> ValidMenuItem(menu[id])
    ensures forall id :: id in Recategorised(menu, from, to) ==> ValidMenuItem(Recategorised(menu, from, to)[id])
  {
  }

  /** Editing a category keeps the database valid. */
  lemma CategoryEditKeepsValid(w: World, oldName: string, newName: string, role: Option<Department>)
    requires ValidWorld(w)
    ensures ValidWorld(CategoryEdit(w, oldName, newName, role).0)
  {
    var (w', r) := CategoryEdit(w, oldName, newName, role);
    if r.Success? {
      var s := w.settings.value;
      var idx := IndexOf(CategoryNames(s.categories), oldName);
      var c := Category(Trim(newName), if role.Some? then role.value else s.categories[idx].role);
      TrimIdempotent(newName);
      ReplacedCategoryValid(s, idx, c);
      var menu' := w'.menu;
      if oldName != Trim(newName) {
        RecategorisedValid(w.menu, oldName, Trim(newName));
      }
      ValidWithMenu(w, menu');
      ValidWithSettings(w.(menu := menu'), r.value);
      assert w' == w.(menu := menu').(settings := Some(r.value));
    }
  }

  /** Replacing one category of a valid document by a valid one keeps it
      valid. */
  lemma ReplacedCategoryValid(s: SettingsDoc, idx: nat, c: Category)
    requires ValidSettings(s) && idx < |s.categories| && ValidCategory(c)
    ensures ValidSettings(s.(categories := s.categories[idx := c]))
  {
  }

  /** Deleting a category keeps the database valid. */
  lemma CategoryDeleteKeepsValid(w: World, name: string)
    requires ValidWorld(w)
    ensures ValidWorld(CategoryDelete(w, name).0)
  {
    var (w', r) := CategoryDelete(w, name);
    if r.Success? {
      var cs := w.settings.value.categories;
      var kept := r.value.categories;
      forall k | 0 <= k < |kept| ensures ValidCategory(kept[k]) {
        assert kept[k] in cs;
      }
      ValidWithSettings(w, r.value);
    }
  }

  /** Adding a hall keeps the database valid. */
  lemma HallAddKeepsValid(w: World, name: string, tables: Option<seq<int>>, kind: Option<HallType>)
    requires ValidWorld(w)
    ensures ValidWorld(HallAdd(w, name, tables, kind).0)
  {
    var (w', r) := HallAdd(w, name, tables, kind);
    if r.Success? {
      SettingsOrDefaultValid(w);
      TrimIdempotent(name);
      AppendHallValid(SettingsOrDefault(w.settings), NewHall(name, tables, kind));
      ValidWithSettings(w, r.value);
    }
  }

  /** Editing a hall keeps the database valid. */
  lemma HallEditKeepsValid(w: World, oldName: string, newName: string, tables: Option<seq<int>>, kind: Option<HallType>)
    requires ValidWorld(w)
    ensures ValidWorld(HallEdit(w, oldName, newName, tables, kind).0)
  {
    var (w', r) := HallEdit(w, oldName, newName, tables, kind);
    if r.Success? {
      TrimIdempotent(newName);
      ValidWithSettings(w, r.value);
    }
  }

  /** Deleting a hall keeps the database valid. */
  lemma HallDeleteKeepsValid(w: World, name: string)
    requires ValidWorld(w)
    ensures ValidWorld(HallDelete(w, name).0)
  {
    var (w', r) := HallDelete(w, name);
    if r.Success? {
      var hs := w.settings.value.halls;
      var kept := r.value.halls;
      forall k | 0 <= k < |kept| ensures ValidHall(kept[k]) {
        assert kept[k] in hs;
      }
      ValidWithSettings(w, r.value);
    }
  }

  /** POST /api/admin/settings/categories on the database. */
  method PostCategory(db: Db, name: string, role: Option<Department>) returns (r: Result<SettingsDoc, ApiError>)
    modifies db
    ensures (db.State(), r) == CategoryAdd(old(db.State()), name, role)
  {
    if IsBlank(name) {
      return Failure(BadRequest(CategoryRequired));
    }
    var s := SettingsOrDefault(db.settings);
    if Trim(name) in CategoryNames(s.categories) {
      return Failure(Conflict(CategoryExists));
    }
    s := s.(categories := s.categories + [NewCategory(name, role)]);
    db.settings := Some(s);
    r := Success(s);
  }

  /** PUT /api/admin/settings/categories on the database. */
  method PutCategory(db: Db, oldName: string, newName: string, role: Option<Department>)
    returns (r: Result<SettingsDoc, ApiError>)
    modifies db
    ensures (db.State(), r) == CategoryEdit(old(db.State()), oldName, newName, role)
  {
    if oldName == "" || IsBlank(newName) {
      return Failure(BadRequest(CategoryNamesRequired));
    }
    if db.settings.None? {
      return Failure(NotFound(SettingsNotFound));
    }
    var s := db.settings.value;
    var idx := IndexOf(CategoryNames(s.categories), oldName);
    if idx == -1 {
      return Failure(NotFound(CategoryNotFound));
    }
    var c := Category(Trim(newName), if role.Some? then role.value else s.categories[idx].role);
    s := s.(categories := s.categories[idx := c]);
    db.settings := Some(s);
    if oldName != Trim(newName) {
      db.menu := Recategorised(db.menu, oldName, Trim(newName));
    }
    r := Success(s);
  }

  /** DELETE /api/admin/settings/categories on the database. */
  method DeleteCategory(db: Db, name: string) returns (r: Result<SettingsDoc, ApiError>)
    modifies db
    ensures (db.State(), r) == CategoryDelete(old(db.State()), name)
  {
    if name == "" {
      return Failure(BadRequest(CategoryRequired));
    }
    if db.settings.None? {
      return Failure(NotFound(SettingsNotFound));
    }
    var s := db.settings.value;
    s := s.(categories := Filter(s.categories, OtherCategory(name)));
    db.settings := Some(s);
    r := Success(s);
  }

  /** POST /api/admin/settings/halls on the database. */
  method PostHall(db: Db, name: string, tables: Option<seq<int>>, kind: Option<HallType>)
    returns (r: Result<SettingsDoc, ApiError>)
    modifies db
    ensures (db.State(), r) == HallAdd(old(db.State()), name, tables, kind)
  {
    if IsBlank(name) {
      return Failure(BadRequest(HallRequired));
    }
    var s := SettingsOrDefault(db.settings);
    if Trim(name) in HallNames(s.halls) {
      return Failure(Conflict(HallExists));
    }
    s := s.(halls := s.halls + [NewHall(name, tables, kind)]);
    db.settings := Some(s);
    r := Success(s);
  }

  /** PUT /api/admin/settings/halls on the database: the hall's fields are
      assigned one by one. */
  method PutHall(db: Db, oldName: string, newName: string, tables: Option<seq<int>>, kind: Option<HallType>)
    returns (r: Result<SettingsDoc, ApiError>)
    modifies db
    ensures (db.State(), r) == HallEdit(old(db.State()), oldName, newName, tables, kind)
  {
    if oldName == "" {
      return Failure(BadRequest(OldNameRequired));
    }
    if db.settings.None? {
      return Failure(NotFound(SettingsNotFound));
    }
    var s := db.settings.value;
    var idx := IndexOf(HallNames(s.halls), oldName);
    if idx == -1 {
      return Failure(NotFound(HallNotFound));
    }
    var h := s.halls[idx];
    if !IsBlank(newName) {
      h := h.(name := Trim(newName));
    }
    if tables.Some? {
      h := h.(tables := tables.value);
    }
    if kind.Some? {
      h := h.(kind := kind.value);
    }
    s := s.(halls := s.halls[idx := h]);
    db.settings := Some(s);
    r := Success(s);
  }

  /** DELETE /api/admin/settings/halls on the database. */
  method DeleteHall(db: Db, name: string) returns (r: Result<SettingsDoc, ApiError>)
    modifies db
    ensures (db.State(), r) == HallDelete(old(db.State()), name)
  {
    if name == "" {
      return Failure(BadRequest(HallRequired));
    }
    if db.settings.None? {
      return Failure(NotFound(SettingsNotFound));
    }
    var s := db.settings.value;
    s := s.(halls := Filter(s.halls, OtherHall(name)));
    db.settings := Some(s);
    r := Success(s);
  }

  // ---------------------------------------------------------------------
  // Users
  // ---------------------------------------------------------------------

  /** Some account other than `except` has the username. */
  predicate UsernameTaken(users: map<UserId, User>, name: string, except: Option<UserId>)
  {
    exists id :: id in users && Some(id) != except && users[id].username == name
  }

  /** The account with the fields a PUT provides changed: a non-empty
      username (trimmed by the schema) or password, a role, an active flag. */
  function UpdatedUser(u: User, username: string, password: string, role: Option<UserRole>, isActive: Option<bool>)
    : (u': User)
    ensures u'.username == (if username != "" then Trim(username) else u.username)
    ensures u'.password == (if password != "" then password else u.password)
    ensures u'.role == (if role.Some? then role.value else u.role)
    ensures u'.isActive == (if isActive.Some? then isActive.value else u.isActive)
  {
    User(
      if username != "" then Trim(username) else u.username,
      if password != "" then password else u.password,
      if role.Some? then role.value else u.role,
      if isActive.Some? then isActive.value else u.isActive)
  }

  /** POST /api/admin/users. The duplicate lookup sees the trimmed username
      (the schema's trim setter also applies to query filters); a user that
      fails the validators is a 500. The new account gets the next id. */
  function UserCreate(w: World, username: string, password: string, role: Option<UserRole>)
    : (World, Result<(UserId, User), ApiError>)
  {
    if username == "" || password == "" || role.None? then (w, Failure(BadRequest(UserFieldsRequired)))
    else if UsernameTaken(w.users, Trim(username), None) then (w, Failure(Conflict(UsernameExists)))
    else
      var u := NewUser(username, password, role.value);
      if !ValidUser(u) then (w, Failure(ServerError))
      else (w.(users := w.users[w.nextId := u], nextId := w.nextId + 1), Success((w.nextId, u)))
  }

  /** PUT /api/admin/users/:id by the account `requester`. A change that
      fails the validators or the unique index on usernames is a 500. */
  function UserUpdate(w: World, id: UserId, requester: UserId, username: string, password: string,
                      role: Option<UserRole>, isActive: Option<bool>): (World, Result<(UserId, User), ApiError>)
  {
    if id !in w.users then (w, Failure(NotFound(UserNotFound)))
    else if isActive == Some(false) && id == requester then (w, Failure(BadRequest(SelfDeactivation)))
    else
      var u := UpdatedUser(w.users[id], username, password, role, isActive);
      if !ValidUser(u) || UsernameTaken(w.users, u.username, Some(id)) then (w, Failure(ServerError))
      else (w.(users := w.users[id := u]), Success((id, u)))
  }

  /** DELETE /api/admin/users/:id. */
  function UserDelete(w: World, id: UserId): (World, Result<string, ApiError>)
  {
    if id !in w.users then (w, Failure(NotFound(UserNotFound)))
    else if w.users[id].role == AdminRole && AdminCount(w.users) <= 1 then (w, Failure(BadRequest(LastAdmin)))
    else (w.(users := w.users - {id}), Success(UserDeleted))
  }

  /** Creating an account fails, changing nothing, exactly when a field is
      missing (400), the trimmed username is taken (409) or the account
      fails the validators (500); otherwise exactly one account is added,
      under the next unused id, active, with the trimmed username, the id
      counter moves on, and nothing else in the store changes. */
  lemma UserCreateRules(w: World, username: string, password: string, role: Option<UserRole>)
    requires ValidWorld(w)
    ensures var (w', r) := UserCreate(w, username, password, role);
      && (r.Failure? <==>
            username == "" || password == "" || role.None? || UsernameTaken(w.users, Trim(username), None)
            || IsBlank(username) || |password| < MinPasswordLength)
      && (r.Failure? ==> w' == w)
      && (r.Failure? && Status(r.error) == 400 <==> username == "" || password == "" || role.None?)
      && (r.Failure? && Status(r.error) == 500 <==>
            username != "" && password != "" && role.Some? && !UsernameTaken(w.users, Trim(username), None)
            && (IsBlank(username) || |password| < MinPasswordLength))
      && (r.Failure? && Status(r.error) == 409 <==>
            username != "" && password != "" && role.Some? && UsernameTaken(w.users, Trim(username), None))
      && (r.Success? ==>
            var (id, u) := r.value;
            && id !in w.users && id == w.nextId
            && w'.users == w.users[id := u]
            && u == User(Trim(username), password, role.value, true)
            && w' == w.(users := w'.users, nextId := w.nextId + 1)
            && w'.orders == w.orders && w'.menu == w.menu && w'.inventory == w.inventory
            && w'.settings == w.settings)
  {
    NewUserValid(username, password, if role.Some? then role.value else AdminRole);
  }

  /** Updating an account fails, changing nothing, exactly when it does not
      exist (404), it is the requester deactivating themselves (400), or
      the changed account fails the validators or takes a username another
      account holds (500); otherwise only that account changes, only in the
      fields provided, and nothing else in the store changes. */
  lemma UserUpdateRules(w: World, id: UserId, requester: UserId, username: string, password: string,
                        role: Option<UserRole>, isActive: Option<bool>)
    ensures var (w', r) := UserUpdate(w, id, requester, username, password, role, isActive);
      && (r.Failure? <==>
            id !in w.users || (isActive == Some(false) && id == requester)
            || !ValidUser(UpdatedUser(w.users[id], username, password, role, isActive))
            || UsernameTaken(w.users, UpdatedUser(w.users[id], username, password, role, isActive).username, Some(id)))
      && (r.Failure? && Status(r.error) == 500 <==>
            id in w.users && !(isActive == Some(false) && id == requester)
            && (!ValidUser(UpdatedUser(w.users[id], username, password, role, isActive))
                || UsernameTaken(w.users, UpdatedUser(w.users[id], username, password, role, isActive).username, Some(id))))
      && (r.Failure? ==> w' == w)
      && (r.Failure? && Status(r.error) == 404 <==> id !in w.users)
      && (r.Failure? && Status(r.error) == 400 <==> id in w.users && isActive == Some(false) && id == requester)
      && (r.Success? ==>
            && id in w.users && r.value.0 == id
            && w'.users == w.users[id := UpdatedUser(w.users[id], username, password, role, isActive)]
            && w'.users[id] == r.value.1
            && w' == w.(users := w'.users)
            && w'.orders == w.orders && w'.menu == w.menu && w'.inventory == w.inventory
            && w'.settings == w.settings)
  {
  }

  /** No request of an account turns off its own active flag. */
  lemma RequesterStaysActive(w: World, id: UserId, requester: UserId, username: string, password: string,
                             role: Option<UserRole>, isActive: Option<bool>)
    requires requester in w.users && w.users[requester].isActive
    ensures var w' := UserUpdate(w, id, requester, username, password, role, isActive).0;
      requester in w'.users && w'.users[requester].isActive
  {
  }

  /** Deleting an account fails, changing nothing, exactly when it does not
      exist (404) or it is an admin and there is no other admin (400);
      otherwise exactly that account goes. */
  lemma UserDeleteRules(w: World, id: UserId)
    ensures var (w', r) := UserDelete(w, id);
      && (r.Failure? <==> id !in w.users || (w.users[id].role == AdminRole && AdminCount(w.users) <= 1))
      && (r.Failure? && Status(r.error) == 404 <==> id !in w.users)
      && (r.Failure? && Status(r.error) == 400 <==>
            id in w.users && w.users[id].role == AdminRole && AdminCount(w.users) <= 1)
      && (r.Failure? ==> w' == w)
      && (r.Success? ==> w' == w.(users := w.users - {id}) && r.value == UserDeleted)
  {
  }

  /** A delete never removes the last admin account. */
  lemma AdminSurvivesDelete(w: World, id: UserId)
    requires AdminCount(w.users) >= 1
    ensures AdminCount(UserDelete(w, id).0.users) >= 1
  {
    var (w', r) := UserDelete(w, id);
    if r.Success? {
      var admins := Admins(w.users);
      assert Admins(w'.users) == admins - {id};
      if w.users[id].role != AdminRole {
        assert Admins(w'.users) == admins;
      }
    }
  }

  /** The last-admin guard covers deletes only: an update may take the admin
      role away from the only admin. */
  lemma LastAdminDemotable()
    ensures var w := EmptyWorld.(users := map[0 := User("admin", "secret", AdminRole, true)], nextId := 1);
      && ValidWorld(w) && AdminCount(w.users) == 1
      && var (w', r) := UserUpdate(w, 0, 0, "", "", Some(WaiterRole), None);
         r.Success? && AdminCount(w'.users) == 0
  {
    var w := EmptyWorld.(users := map[0 := User("admin", "secret", AdminRole, true)], nextId := 1);
    assert Admins(w.users) == {0};
    var w' := UserUpdate(w, 0, 0, "", "", Some(WaiterRole), None).0;
    assert Admins(w'.users) == {};
  }

  /** Creating an account keeps the database valid, usernames unique
      included. */
  lemma UserCreateKeepsValid(w: World, username: string, password: string, role: Option<UserRole>)
    requires ValidWorld(w)
    ensures ValidWorld(UserCreate(w, username, password, role).0)
  {
    var (w', r) := UserCreate(w, username, password, role);
    if r.Success? {
      ValidWithUsers(w, w'.users, w'.nextId);
    }
  }

  /** Updating an account keeps the database valid, usernames unique
      included. */
  lemma UserUpdateKeepsValid(w: World, id: UserId, requester: UserId, username: string, password: string,
                             role: Option<UserRole>, isActive: Option<bool>)
    requires ValidWorld(w)
    ensures ValidWorld(UserUpdate(w, id, requester, username, password, role, isActive).0)
  {
    var (w', r) := UserUpdate(w, id, requester, username, password, role, isActive);
    if r.Success? {
      ValidWithUsers(w, w'.users, w.nextId);
    }
  }

  /** Deleting an account keeps the database valid. */
  lemma UserDeleteKeepsValid(w: World, id: UserId)
    requires ValidWorld(w)
    ensures ValidWorld(UserDelete(w, id).0)
  {
    var (w', r) := UserDelete(w, id);
    if r.Success? {
      ValidWithUsers(w, w'.users, w.nextId);
    }
  }

  /** POST /api/admin/users on the database. */
  method PostUser(db: Db, username: string, password: string, role: Option<UserRole>)
    returns (r: Result<(UserId, User), ApiError>)
    modifies db
    ensures (db.State(), r) == UserCreate(old(db.State()), username, password, role)
  {
    if username == "" || password == "" || role.None? {
      return Failure(BadRequest(UserFieldsRequired));
    }
    if UsernameTaken(db.users, Trim(username), None) {
      return Failure(Conflict(UsernameExists));
    }
    var u := NewUser(username, password, role.value);
    if !ValidUser(u) {
      return Failure(ServerError);
    }
    var id := db.nextId;
    db.users := db.users[id := u];
    db.nextId := db.nextId + 1;
    r := Success((id, u));
  }

  /** PUT /api/admin/users/:id on the database: the account's fields are
      assigned one by one, then saved. */
  method PutUser(db: Db, id: UserId, requester: UserId, username: string, password: string,
                 role: Option<UserRole>, isActive: Option<bool>) returns (r: Result<(UserId, User), ApiError>)
    modifies db
    ensures (db.State(), r) == UserUpdate(old(db.State()), id, requester, username, password, role, isActive)
  {
    if id !in db.users {
      return Failure(NotFound(UserNotFound));
    }
    if isActive == Some(false) && id == requester {
      return Failure(BadRequest(SelfDeactivation));
    }
    var u := db.users[id];
    if username != "" {
      u := u.(username := Trim(username));
    }
    if password != "" {
      u := u.(password := password);
    }
    if role.Some? {
      u := u.(role := role.value);
    }
    if isActive.Some? {
      u := u.(isActive := isActive.value);
    }
    assert u == UpdatedUser(db.users[id], username, password, role, isActive);
    if !ValidUser(u) || UsernameTaken(db.users, u.username, Some(id)) {
      return Failure(ServerError);
    }
    db.users := db.users[id := u];
    r := Success((id, u));
  }

  /** DELETE /api/admin/users/:id on the database. */
  method DeleteUser(db: Db, id: UserId) returns (r: Result<string, ApiError>)
    modifies db
    ensures (db.State(), r) == UserDelete(old(db.State()), id)
  {
    if id !in db.users {
      return Failure(NotFound(UserNotFound));
    }
    if db.users[id].role == AdminRole {
      var admins := AdminCount(db.users);
      if admins <= 1 {
        return Failure(BadRequest(LastAdmin));
      }
    }
    db.users := db.users - {id};
    r := Success(UserDeleted);
  }

  // ---------------------------------------------------------------------
  // Inventory items
  // ---------------------------------------------------------------------

  /** The filter of the delete cascade: recipe lines of other items. */
  function OtherIngredient(id: InvId): Ingredient -> bool
  {
    (g: Ingredient) => g.inventoryItem != id
  }

  /** The menu with every recipe line of inventory item `id` removed:
      `MenuItem.updateMany({}, { $pull: { ingredients: { inventoryItem: id } } })`. */
  function Purged(menu: map<MenuId, MenuItem>, id: InvId): map<MenuId, MenuItem>
  {
    map m | m in menu :: menu[m].(ingredients := Filter(menu[m].ingredients, OtherIngredient(id)))
  }

  /** POST /api/admin/inventory. `stock || 0` and `unit || 'portions'`: a
      zero or absent stock is 0 and an empty or absent unit is the default.
      A negative stock fails the validators: a 500. */
  function InventoryCreate(w: World, name: string, stock: Option<int>, unit: Option<string>, now: int)
    : (World, Result<(InvId, InventoryItem), ApiError>)
  {
    if IsBlank(name) then (w, Failure(BadRequest(InventoryNameRequired)))
    else
      var item := NewInventoryItem(name, stock, if unit == Some("") then None else unit, now);
      if item.stock < 0 then (w, Failure(ServerError))
      else (w.(inventory := w.inventory[w.nextId := item], nextId := w.nextId + 1), Success((w.nextId, item)))
  }

  /** DELETE /api/admin/inventory/:id. */
  function InventoryDelete(w: World, id: InvId): (World, Result<string, ApiError>)
  {
    if id !in w.inventory then (w, Failure(NotFound(InventoryNotFound)))
    else (w.(inventory := w.inventory - {id}, menu := Purged(w.menu, id)), Success(InventoryDeleted))
  }

  /** Creating an inventory item fails, changing nothing, exactly when the
      name is blank (400) or the stock is negative (500); otherwise exactly
      one item is added under the next unused id, with the trimmed name,
      the stock or 0, and the unit or "portions", the id counter moves on,
      and nothing else in the store changes. */
  lemma InventoryCreateRules(w: World, name: string, stock: Option<int>, unit: Option<string>, now: int)
    requires ValidWorld(w)
    ensures var (w', r) := InventoryCreate(w, name, stock, unit, now);
      && (r.Failure? <==> IsBlank(name) || (stock.Some? && stock.value < 0))
      && (r.Failure? ==> w' == w)
      && (r.Failure? && Status(r.error) == 400 <==> IsBlank(name))
      && (r.Success? ==>
            var (id, item) := r.value;
            && id !in w.inventory && id == w.nextId
            && w'.inventory == w.inventory[id := item]
            && w' == w.(inventory := w'.inventory, nextId := w.nextId + 1)
            && item.name == Trim(name) && ValidInventoryItem(item)
            && item.stock == (if stock.Some? then stock.value else 0)
            && item.unit == (if unit.Some? && unit.value != "" then unit.value else DefaultUnit)
            && w'.menu == w.menu && w'.users == w.users && w'.orders == w.orders)
  {
    TrimIdempotent(name);
  }

  /** Deleting an inventory item fails, changing nothing, exactly when it
      does not exist (404). Otherwise the item goes, no recipe refers to it
      any more, every recipe keeps exactly its other lines in their order,
      nothing else about a menu item changes, and nothing else in the
      store changes. */
  lemma InventoryDeleteRules(w: World, id: InvId)
    ensures var (w', r) := InventoryDelete(w, id);
      && (r.Failure? <==> id !in w.inventory)
      && (r.Failure? ==> w' == w)
      && (r.Success? ==>
            && w'.inventory == w.inventory - {id}
            && w'.menu.Keys == w.menu.Keys
            && (forall m, g :: m in w'.menu && g in w'.menu[m].ingredients ==> g.inventoryItem != id)
            && (forall m, g :: m in w.menu && g in w.menu[m].ingredients && g.inventoryItem != id ==>
                  g in w'.menu[m].ingredients)
            && (forall m :: m in w.menu ==> w'.menu[m] == w.menu[m].(ingredients := w'.menu[m].ingredients))
            && (forall m :: m in w.menu ==>
                  KeptAt(w.menu[m].ingredients, w'.menu[m].ingredients, OtherIngredient(id),
                         FilterPositions(w.menu[m].ingredients, OtherIngredient(id))))
            && w'.users == w.users && w'.orders == w.orders && w'.settings == w.settings
            && w'.logs == w.logs && w'.outbox == w.outbox && w'.nextId == w.nextId)
  {
  }

  /** Creating an inventory item keeps the database valid. */
  lemma InventoryCreateKeepsValid(w: World, name: string, stock: Option<int>, unit: Option<string>, now: int)
    requires ValidWorld(w)
    ensures ValidWorld(InventoryCreate(w, name, stock, unit, now).0)
  {
    var (w', r) := InventoryCreate(w, name, stock, unit, now);
    if r.Success? {
      TrimIdempotent(name);
      ValidWithInventory(w, w'.inventory, w'.nextId);
    }
  }

  /** Deleting an inventory item keeps the database valid: recipes only
      lose lines. */
  lemma InventoryDeleteKeepsValid(w: World, id: InvId)
    requires ValidWorld(w)
    ensures ValidWorld(InventoryDelete(w, id).0)
  {
    var (w', r) := InventoryDelete(w, id);
    if r.Success? {
      forall m | m in w'.menu ensures ValidMenuItem(w'.menu[m]) {
        var gs := w.menu[m].ingredients;
        var kept := w'.menu[m].ingredients;
        assert ValidMenuItem(w.menu[m]);
        forall k | 0 <= k < |kept| ensures ValidIngredient(kept[k]) {
          assert kept[k] in gs;
        }
      }
      var w1 := w.(inventory := w'.inventory);
      ValidWithInventory(w, w'.inventory, w.nextId);
      ValidWithMenu(w1, w'.menu);
    }
  }

  /** POST /api/admin/inventory on the database. */
  method PostInventoryItem(db: Db, name: string, stock: Option<int>, unit: Option<string>, now: int)
    returns (r: Result<(InvId, InventoryItem), ApiError>)
    modifies db
    ensures (db.State(), r) == InventoryCreate(old(db.State()), name, stock, unit, now)
  {
    if IsBlank(name) {
      return Failure(BadRequest(InventoryNameRequired));
    }
    var item := NewInventoryItem(name, stock, if unit == Some("") then None else unit, now);
    if item.stock < 0 {
      return Failure(ServerError);
    }
    var id := db.nextId;
    db.inventory := db.inventory[id := item];
    db.nextId := db.nextId + 1;
    r := Success((id, item));
  }

  /** DELETE /api/admin/inventory/:id on the database: the item goes, then
      every recipe loses its lines for it. */
  method DeleteInventoryItem(db: Db, id: InvId) returns (r: Result<string, ApiError>)
    modifies db
    ensures (db.State(), r) == InventoryDelete(old(db.State()), id)
  {
    if id !in db.inventory {
      return Failure(NotFound(InventoryNotFound));
    }
    db.inventory := db.inventory - {id};
    db.menu := Purged(db.menu, id);
    r := Success(InventoryDeleted);
  }
}
