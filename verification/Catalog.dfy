/** The platform's copy of a venue's menu: rows of `menu_categories` and `menu_items`, keyed by the
    unique external id, and the snapshots that rewrite them. */
module Catalog {
  import opened Types

  datatype Item = Item(external: Id, name: string, description: string, price: int, currency: Currency, available: bool)

  datatype Category = Category(external: Id, name: string, items: seq<Item>)

  datatype Snapshot = Snapshot(version: int, categories: seq<Category>)

  datatype CategoryRow = CategoryRow(id: Id, name: string, position: int, active: bool)

  datatype ItemRow = ItemRow(
    id: Id, category: Id, name: string, description: string, price: int, currency: Currency,
    available: bool, active: bool, position: int)

  /** `version` and `accepted` are the venue's `menu_version` and `menu_snapshot_hash`; the hash stands
      for the snapshot it was computed from. */
  datatype Tables = Tables(
    categories: map<Id, CategoryRow>, items: map<Id, ItemRow>,
    version: Option<int>, accepted: Option<Snapshot>)

  const EMPTY_TABLES: Tables := Tables(map[], map[], None, None)

  // ---------- service.go: validateSnapshot (text lengths are left out) ----------

  ghost predicate UniqueCategories(categories: seq<Category>) {
    forall j, k :: 0 <= j < k < |categories| ==> categories[j].external != categories[k].external
  }

  /** Item ids are unique over the whole snapshot, not only inside one category. */
  ghost predicate UniqueItems(categories: seq<Category>) {
    forall j, k, x, y ::
      (&& 0 <= j < |categories| && 0 <= k < |categories|
       && 0 <= x < |categories[j].items| && 0 <= y < |categories[k].items|
       && categories[j].items[x].external == categories[k].items[y].external) ==> j == k && x == y
  }

  ghost predicate ValidSnapshot(s: Snapshot) {
    && s.version >= 1
    && 1 <= |s.categories| <= 100
    && (forall k :: 0 <= k < |s.categories| ==> |s.categories[k].items| <= 1000)
    && (forall k, x :: 0 <= k < |s.categories| && 0 <= x < |s.categories[k].items| ==>
         0 <= s.categories[k].items[x].price)
    && UniqueCategories(s.categories)
    && UniqueItems(s.categories)
  }

  // ---------- partner.go: ReplaceMenu ----------

  /** Primary keys. */
  ghost predicate UniqueIds(t: Tables) {
    && (forall a, b :: a in t.categories && b in t.categories && t.categories[a].id == t.categories[b].id ==> a == b)
    && (forall a, b :: a in t.items && b in t.items && t.items[a].id == t.items[b].id ==> a == b)
  }

  predicate CategoryMatches(row: CategoryRow, category: Category, position: int) {
    row.name == category.name && row.position == position && row.active
  }

  predicate ItemMatches(row: ItemRow, item: Item, category: Id, position: int) {
    && row.category == category && row.name == item.name && row.description == item.description
    && row.price == item.price && row.currency == item.currency && row.available == item.available
    && row.active && row.position == position
  }

  ghost predicate ListsCategory(s: Snapshot, external: Id) {
    exists k :: 0 <= k < |s.categories| && s.categories[k].external == external
  }

  ghost predicate ListsItem(s: Snapshot, external: Id) {
    exists k, x :: 0 <= k < |s.categories| && 0 <= x < |s.categories[k].items| &&
         s.categories[k].items[x].external == external
  }

  ghost predicate ShowsCategories(t: Tables, s: Snapshot) {
    forall k :: 0 <= k < |s.categories| ==>
      && s.categories[k].external in t.categories
      && CategoryMatches(t.categories[s.categories[k].external], s.categories[k], k)
  }

  ghost predicate ShowsItems(t: Tables, s: Snapshot)
    requires ShowsCategories(t, s)
  {
    forall k, x :: 0 <= k < |s.categories| && 0 <= x < |s.categories[k].items| ==>
      && s.categories[k].items[x].external in t.items
      && ItemMatches(t.items[s.categories[k].items[x].external], s.categories[k].items[x],
                     t.categories[s.categories[k].external].id, x)
  }

  ghost predicate ShowsNothingElse(t: Tables, s: Snapshot) {
    && (forall e :: e in t.categories && t.categories[e].active ==> ListsCategory(s, e))
    && (forall e :: e in t.items && t.items[e].active ==> ListsItem(s, e))
  }

  /** The active rows are exactly the snapshot, in its order. */
  ghost predicate Shows(t: Tables, s: Snapshot) {
    ShowsCategories(t, s) && ShowsItems(t, s) && ShowsNothingElse(t, s)
  }

  /** Known external ids keep their rows' ids; rows that the snapshot does not list are only switched off. */
  ghost predicate KeepsRows(was: Tables, t: Tables, s: Snapshot) {
    && (forall e :: e in was.categories ==> e in t.categories && t.categories[e].id == was.categories[e].id)
    && (forall e :: e in was.items ==> e in t.items && t.items[e].id == was.items[e].id)
    && (forall e :: e in t.categories && !ListsCategory(s, e) ==>
          e in was.categories && t.categories[e] == was.categories[e].(active := false))
    && (forall e :: e in t.items && !ListsItem(s, e) ==>
          e in was.items && t.items[e] == was.items[e].(active := false, available := false))
  }

  ghost predicate Published(was: Tables, t: Tables, s: Snapshot) {
    && Shows(t, s) && KeepsRows(was, t, s) && UniqueIds(t)
    && t.version == Some(s.version) && t.accepted == Some(s)
  }

  datatype PublishError = StaleVersion | VersionConflict

  /** The version check: apply, ignore an exact repeat, or refuse. */
  datatype Verdict = Apply | Ignore | Refuse(error: PublishError)

  function Judge(t: Tables, s: Snapshot): Verdict {
    if t.version.None? || s.version > t.version.value then Apply
    else if s.version < t.version.value then Refuse(StaleVersion)
    else if t.accepted == Some(s) then Ignore
    else Refuse(VersionConflict)
  }

  /** What one call of ReplaceMenu may do to the rows. */
  ghost predicate Replaces(was: Tables, t: Tables, s: Snapshot) {
    if Judge(was, s).Apply? then Published(was, t, s) else t == was
  }

  /** The rows always show the snapshot accepted at the stored version. */
  ghost predicate Inv(t: Tables) {
    && UniqueIds(t)
    && (t.version.None? ==> t == EMPTY_TABLES)
    && (t.version.Some? ==>
          t.accepted.Some? && t.accepted.value.version == t.version.value
          && ValidSnapshot(t.accepted.value) && Shows(t, t.accepted.value))
  }

  lemma ReplaceKeepsInv(was: Tables, t: Tables, s: Snapshot)
    requires Inv(was) && ValidSnapshot(s) && Replaces(was, t, s)
    ensures Inv(t)
    ensures was.version.Some? ==> t.version.Some? && was.version.value <= t.version.value
    ensures was.version.Some? && t.version == was.version ==> t == was
  {
  }
}
