/**
 * The Settings document (backend/src/models/Settings.ts): the number of
 * tables, the menu categories with the serving department each is routed
 * to, and the halls (or single-table cabinets) with their table numbers.
 */
module SettingsModel {
  import opened Common

  /** The serving department of a category: the `role` enum 'kitchen' | 'bar'. */
  datatype Department = Kitchen | Bar

  /** The hall `type` enum 'hall' | 'cabinet'. */
  datatype HallType = HallRoom | Cabinet

  datatype Category = Category(name: string, role: Department)

  datatype Hall = Hall(name: string, tables: seq<int>, kind: HallType)

  datatype SettingsDoc = SettingsDoc(tableCount: int, categories: seq<Category>, halls: seq<Hall>)

  const DefaultTableCount: int := 20

  const DefaultCategories: seq<Category> := [
    Category("Fast Food", Kitchen),
    Category("Hot drinks", Bar),
    Category("Cold drinks", Bar),
    Category("Non-Alchohol cocktails", Bar),
    Category("Cocktails", Bar),
    Category("Draft beer", Bar),
    Category("Bottle beer", Bar),
    Category("Fruit", Kitchen),
    Category("Hot lunch", Kitchen),
    Category("Çərəzlər", Kitchen),
    Category("Souslar", Kitchen),
    Category("Alchohol drinks", Bar),
    Category("Siqaretlər", Bar)
  ]

  /** Tables 1 to 20, as `Array.from({ length: 20 }, (_, i) => i + 1)`. */
  const DefaultTables: seq<int> := [1, 2, 3, 4, 5, 6, 7, 8, 9, 10, 11, 12, 13, 14, 15, 16, 17, 18, 19, 20]

  const DefaultHalls: seq<Hall> := [Hall("Main Hall", DefaultTables, HallRoom)]

  /** The document `new Settings({})` creates. */
  const DefaultSettings: SettingsDoc := SettingsDoc(DefaultTableCount, DefaultCategories, DefaultHalls)

  /** Category names are required and trimmed. */
  predicate ValidCategory(c: Category)
  {
    c.name != "" && Trimmed(c.name)
  }

  /** Hall names are required and trimmed. */
  predicate ValidHall(h: Hall)
  {
    h.name != "" && Trimmed(h.name)
  }

  /** The settings validators: at least one table, valid categories and halls. */
  predicate ValidSettings(s: SettingsDoc)
  {
    && s.tableCount >= 1
    && (forall k :: 0 <= k < |s.categories| ==> ValidCategory(s.categories[k]))
    && (forall k :: 0 <= k < |s.halls| ==> ValidHall(s.halls[k]))
  }

  /** A new category entry: the name is trimmed and an absent role is kitchen. */
  function NewCategory(name: string, role: Option<Department>): (c: Category)
    ensures c.name == Trim(name)
    ensures c.role == (if role.Some? then role.value else Kitchen)
  {
    Category(Trim(name), if role.Some? then role.value else Kitchen)
  }

  /** A new hall entry: the name is trimmed, absent tables are the empty
      list and an absent type is 'hall'. */
  function NewHall(name: string, tables: Option<seq<int>>, kind: Option<HallType>): (h: Hall)
    ensures h.name == Trim(name)
    ensures h.tables == (if tables.Some? then tables.value else [])
    ensures h.kind == (if kind.Some? then kind.value else HallRoom)
  {
    Hall(Trim(name), if tables.Some? then tables.value else [], if kind.Some? then kind.value else HallRoom)
  }

  /** The names of the categories, in order. */
  function CategoryNames(cs: seq<Category>): (ns: seq<string>)
    ensures |ns| == |cs| && forall k :: 0 <= k < |cs| ==> ns[k] == cs[k].name
  {
    if |cs| == 0 then [] else CategoryNames(cs[..|cs| - 1]) + [cs[|cs| - 1].name]
  }

  /** The names of the halls, in order. */
  function HallNames(hs: seq<Hall>): (ns: seq<string>)
    ensures |ns| == |hs| && forall k :: 0 <= k < |hs| ==> ns[k] == hs[k].name
  {
    if |hs| == 0 then [] else HallNames(hs[..|hs| - 1]) + [hs[|hs| - 1].name]
  }

  /** The departments of the categories, in order. */
  function Roles(cs: seq<Category>): (rs: seq<Department>)
    ensures |rs| == |cs| && forall k :: 0 <= k < |cs| ==> rs[k] == cs[k].role
  {
    if |cs| == 0 then [] else Roles(cs[..|cs| - 1]) + [cs[|cs| - 1].role]
  }

  /** The default content: thirteen categories with the listed departments
      (for example Fast Food to the kitchen, cigarettes to the bar), one
      "Main Hall" of type hall holding tables 1 to 20, twenty tables. */
  lemma DefaultSettingsContent()
    ensures |DefaultSettings.categories| == 13
    ensures DefaultSettings.categories[0] == Category("Fast Food", Kitchen)
    ensures DefaultSettings.categories[12] == Category("Siqaretlər", Bar)
    ensures Roles(DefaultSettings.categories)
         == [Kitchen, Bar, Bar, Bar, Bar, Bar, Bar, Kitchen, Kitchen, Kitchen, Kitchen, Bar, Bar]
    ensures DefaultSettings.tableCount == 20
    ensures |DefaultSettings.halls| == 1 && DefaultSettings.halls[0].name == "Main Hall"
    ensures DefaultSettings.halls[0].kind == HallRoom
    ensures forall i :: 0 <= i < |DefaultSettings.halls[0].tables| ==> DefaultSettings.halls[0].tables[i] == i + 1
    ensures |DefaultSettings.halls[0].tables| == 20
  {
  }

  /** A name that starts with a capital and ends with a small letter is
      non-empty and trimmed. */
  lemma NameOk(n: string)
    requires |n| > 0 && ('A' <= n[0] <= 'Z' || n[0] == 'Ç') && 'a' <= n[|n| - 1] <= 'z'
    ensures n != "" && Trimmed(n)
  {
  }

  /** The default document passes its own validators. */
  lemma DefaultSettingsValid()
    ensures ValidSettings(DefaultSettings)
  {
    NameOk("Fast Food");
    NameOk("Hot drinks");
    NameOk("Cold drinks");
    NameOk("Non-Alchohol cocktails");
    NameOk("Cocktails");
    NameOk("Draft beer");
    NameOk("Bottle beer");
    NameOk("Fruit");
    NameOk("Hot lunch");
    NameOk("Çərəzlər");
    NameOk("Souslar");
    NameOk("Alchohol drinks");
    NameOk("Siqaretlər");
    NameOk("Main Hall");
  }
}
