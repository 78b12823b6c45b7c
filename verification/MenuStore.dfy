/** Writing a snapshot into the menu tables and reading the menu back. */
module MenuStore {
  import opened Types
  import opened Catalog

  // ---------- one upsert at a time ----------

  function UpsertCategory(t: Tables, category: Category, newId: Id, position: int): Tables {
    var id := if category.external in t.categories then t.categories[category.external].id else newId;
    t.(categories := t.categories[category.external := CategoryRow(id, category.name, position, true)])
  }

  function UpsertItem(t: Tables, item: Item, newId: Id, category: Id, position: int): Tables {
    var id := if item.external in t.items then t.items[item.external].id else newId;
    t.(items := t.items[item.external :=
      ItemRow(id, category, item.name, item.description, item.price, item.currency, item.available, true, position)])
  }

  function Deactivated(t: Tables): Tables {
    t.(categories := map e | e in t.categories :: t.categories[e].(active := false),
       items := map e | e in t.items :: t.items[e].(active := false, available := false))
  }

  /** Every row id was issued before `next`. */
  ghost predicate IdsBelow(t: Tables, next: Id) {
    && (forall e :: e in t.categories ==> t.categories[e].id < next)
    && (forall e :: e in t.items ==> t.items[e].id < next)
  }

  function WithCategory(s: Snapshot, category: Category): Snapshot {
    s.(categories := s.categories + [category.(items := [])])
  }

  /** The snapshot with one more item in its last category. */
  function WithItem(s: Snapshot, item: Item): Snapshot
    requires |s.categories| > 0
  {
    var n := |s.categories| - 1;
    s.(categories := s.categories[n := s.categories[n].(items := s.categories[n].items + [item])])
  }

  /** The tables written so far: what the processed part of the snapshot says, and nothing else active. */
  ghost predicate Written(was: Tables, t: Tables, part: Snapshot) {
    Shows(t, part) && KeepsRows(was, t, part) && UniqueIds(t)
  }

  lemma DeactivatedShowsNothing(was: Tables, s: Snapshot)
    requires UniqueIds(was)
    ensures Written(was, Deactivated(was), s.(categories := []))
  {
  }

  lemma ListedWithCategory(s: Snapshot, category: Category, e: Id)
    ensures ListsCategory(WithCategory(s, category), e) <==> ListsCategory(s, e) || e == category.external
    ensures ListsItem(WithCategory(s, category), e) <==> ListsItem(s, e)
  {
    var r := WithCategory(s, category);
    if ListsCategory(s, e) {
      var k :| 0 <= k < |s.categories| && s.categories[k].external == e;
      assert r.categories[k].external == e;
    }
    if e == category.external {
      assert r.categories[|s.categories|].external == e;
    }
    if ListsItem(s, e) {
      var k, x :| 0 <= k < |s.categories| && 0 <= x < |s.categories[k].items| && s.categories[k].items[x].external == e;
      assert r.categories[k].items[x].external == e;
    }
    if ListsItem(r, e) {
      var k, x :| 0 <= k < |r.categories| && 0 <= x < |r.categories[k].items| && r.categories[k].items[x].external == e;
      assert s.categories[k].items[x].external == e;
    }
  }

  lemma AllListedWithCategory(s: Snapshot, category: Category)
    ensures forall e :: ListsCategory(WithCategory(s, category), e) <==> ListsCategory(s, e) || e == category.external
    ensures forall e :: ListsItem(WithCategory(s, category), e) <==> ListsItem(s, e)
  {
    forall e ensures ListsCategory(WithCategory(s, category), e) <==> ListsCategory(s, e) || e == category.external
      ensures ListsItem(WithCategory(s, category), e) <==> ListsItem(s, e)
    {
      ListedWithCategory(s, category, e);
    }
  }

  lemma CategoryShown(t: Tables, part: Snapshot, category: Category, newId: Id)
    requires Shows(t, part) && !ListsCategory(part, category.external)
    ensures Shows(UpsertCategory(t, category, newId, |part.categories|), WithCategory(part, category))
  {
    AllListedWithCategory(part, category);
    assert forall k :: 0 <= k < |part.categories| ==> part.categories[k].external != category.external;
    hide ListsCategory, ListsItem;
  }

  lemma CategoryKeepsRows(was: Tables, t: Tables, part: Snapshot, category: Category, newId: Id)
    requires KeepsRows(was, t, part)
    ensures KeepsRows(was, UpsertCategory(t, category, newId, |part.categories|), WithCategory(part, category))
  {
    AllListedWithCategory(part, category);
    hide ListsCategory, ListsItem;
  }

  lemma CategoryKeepsIds(t: Tables, category: Category, newId: Id, position: int)
    requires UniqueIds(t) && IdsBelow(t, newId)
    ensures UniqueIds(UpsertCategory(t, category, newId, position))
    ensures IdsBelow(UpsertCategory(t, category, newId, position), newId + 1)
  {
  }

  lemma CategoryWritten(was: Tables, t: Tables, part: Snapshot, category: Category, newId: Id)
    requires Written(was, t, part) && IdsBelow(t, newId) && !ListsCategory(part, category.external)
    ensures Written(was, UpsertCategory(t, category, newId, |part.categories|), WithCategory(part, category))
    ensures IdsBelow(UpsertCategory(t, category, newId, |part.categories|), newId + 1)
  {
    CategoryShown(t, part, category, newId);
    CategoryKeepsRows(was, t, part, category, newId);
    hide Shows, KeepsRows, ListsCategory;
    CategoryKeepsIds(t, category, newId, |part.categories|);
    hide UniqueIds, IdsBelow, UpsertCategory;
  }

  lemma ListedWithItem(s: Snapshot, item: Item, e: Id)
    requires |s.categories| > 0
    ensures ListsCategory(WithItem(s, item), e) <==> ListsCategory(s, e)
    ensures ListsItem(WithItem(s, item), e) <==> ListsItem(s, e) || e == item.external
  {
    var r, n := WithItem(s, item), |s.categories| - 1;
    if ListsCategory(s, e) {
      var k :| 0 <= k < |s.categories| && s.categories[k].external == e;
      assert r.categories[k].external == e;
    }
    if ListsCategory(r, e) {
      var k :| 0 <= k < |r.categories| && r.categories[k].external == e;
      assert s.categories[k].external == e;
    }
    if ListsItem(s, e) {
      var k, x :| 0 <= k < |s.categories| && 0 <= x < |s.categories[k].items| && s.categories[k].items[x].external == e;
      assert r.categories[k].items[x].external == e;
    }
    if e == item.external {
      assert r.categories[n].items[|s.categories[n].items|].external == e;
    }
    if ListsItem(r, e) {
      var k, x :| 0 <= k < |r.categories| && 0 <= x < |r.categories[k].items| && r.categories[k].items[x].external == e;
      assert e == item.external || s.categories[k].items[x].external == e;
    }
  }

  lemma AllListedWithItem(s: Snapshot, item: Item)
    requires |s.categories| > 0
    ensures forall e :: ListsCategory(WithItem(s, item), e) <==> ListsCategory(s, e)
    ensures forall e :: ListsItem(WithItem(s, item), e) <==> ListsItem(s, e) || e == item.external
  {
    forall e ensures ListsCategory(WithItem(s, item), e) <==> ListsCategory(s, e)
      ensures ListsItem(WithItem(s, item), e) <==> ListsItem(s, e) || e == item.external
    {
      ListedWithItem(s, item, e);
    }
  }

  /** The tables after the upsert of one more item of the last category. */
  function ItemUpserted(t: Tables, part: Snapshot, item: Item, newId: Id): Tables
    requires |part.categories| > 0 && part.categories[|part.categories| - 1].external in t.categories
  {
    var last := part.categories[|part.categories| - 1];
    UpsertItem(t, item, newId, t.categories[last.external].id, |last.items|)
  }

  lemma ItemShown(t: Tables, part: Snapshot, item: Item, newId: Id)
    requires |part.categories| > 0 && Shows(t, part) && !ListsItem(part, item.external)
    ensures part.categories[|part.categories| - 1].external in t.categories
    ensures Shows(ItemUpserted(t, part, item, newId), WithItem(part, item))
  {
    ItemShownInPlace(t, part, item, newId);
    AllListedWithItem(part, item);
    hide ListsCategory, ListsItem, ShowsItems;
  }

  lemma ItemShownInPlace(t: Tables, part: Snapshot, item: Item, newId: Id)
    requires |part.categories| > 0 && ShowsCategories(t, part) && ShowsItems(t, part) && !ListsItem(part, item.external)
    ensures part.categories[|part.categories| - 1].external in t.categories
    ensures ShowsCategories(ItemUpserted(t, part, item, newId), WithItem(part, item))
    ensures ShowsItems(ItemUpserted(t, part, item, newId), WithItem(part, item))
  {
    var u, r, n := ItemUpserted(t, part, item, newId), WithItem(part, item), |part.categories| - 1;
    forall k, x | 0 <= k < |r.categories| && 0 <= x < |r.categories[k].items|
      ensures r.categories[k].items[x].external in u.items
      ensures ItemMatches(u.items[r.categories[k].items[x].external], r.categories[k].items[x],
                          u.categories[r.categories[k].external].id, x)
    {
      if k < n || x < |part.categories[n].items| {
        assert part.categories[k].items[x] == r.categories[k].items[x];
        assert r.categories[k].items[x].external != item.external;
      }
    }
  }

  lemma ItemKeepsRows(was: Tables, t: Tables, part: Snapshot, item: Item, newId: Id)
    requires |part.categories| > 0 && part.categories[|part.categories| - 1].external in t.categories
    requires KeepsRows(was, t, part)
    ensures KeepsRows(was, ItemUpserted(t, part, item, newId), WithItem(part, item))
  {
    AllListedWithItem(part, item);
    hide ListsCategory, ListsItem;
  }

  lemma ItemKeepsIds(t: Tables, item: Item, newId: Id, category: Id, position: int)
    requires UniqueIds(t) && IdsBelow(t, newId)
    ensures UniqueIds(UpsertItem(t, item, newId, category, position))
    ensures IdsBelow(UpsertItem(t, item, newId, category, position), newId + 1)
  {
  }

  lemma ItemWritten(was: Tables, t: Tables, part: Snapshot, item: Item, newId: Id)
    requires |part.categories| > 0 && Written(was, t, part) && IdsBelow(t, newId) && !ListsItem(part, item.external)
    ensures part.categories[|part.categories| - 1].external in t.categories
    ensures Written(was, ItemUpserted(t, part, item, newId), WithItem(part, item))
    ensures IdsBelow(ItemUpserted(t, part, item, newId), newId + 1)
  {
    ItemShown(t, part, item, newId);
    ItemKeepsRows(was, t, part, item, newId);
    hide Shows, KeepsRows, ListsItem;
    var last := part.categories[|part.categories| - 1];
    ItemKeepsIds(t, item, newId, t.categories[last.external].id, |last.items|);
    hide UniqueIds, IdsBelow, UpsertItem;
  }

  // ---------- the nested loops of ReplaceMenu ----------

  /** The first `k` categories and the first `i` items of the next one. */
  function Part(s: Snapshot, k: nat, i: nat): Snapshot
    requires k < |s.categories| && i <= |s.categories[k].items|
  {
    s.(categories := s.categories[..k] + [s.categories[k].(items := s.categories[k].items[..i])])
  }

  function Prefix(s: Snapshot, k: nat): Snapshot
    requires k <= |s.categories|
  {
    s.(categories := s.categories[..k])
  }

  lemma PartsMeet(s: Snapshot, k: nat)
    requires k < |s.categories|
    ensures WithCategory(Prefix(s, k), s.categories[k]) == Part(s, k, 0)
    ensures Part(s, k, |s.categories[k].items|) == Prefix(s, k + 1)
  {
    assert s.categories[k].items[..0] == [];
    assert s.categories[k].items[..|s.categories[k].items|] == s.categories[k].items;
    assert s.categories[k].(items := s.categories[k].items) == s.categories[k];
  }

  lemma PartGrows(s: Snapshot, k: nat, i: nat)
    requires k < |s.categories| && i < |s.categories[k].items|
    ensures WithItem(Part(s, k, i), s.categories[k].items[i]) == Part(s, k, i + 1)
  {
    var items := s.categories[k].items;
    assert items[..i] + [items[i]] == items[..i + 1];
  }

  lemma CategoryIsNew(s: Snapshot, k: nat)
    requires k < |s.categories| && UniqueCategories(s.categories)
    ensures !ListsCategory(Prefix(s, k), s.categories[k].external)
  {
  }

  lemma ItemIsNew(s: Snapshot, k: nat, i: nat)
    requires k < |s.categories| && i < |s.categories[k].items| && Catalog.UniqueItems(s.categories)
    ensures !ListsItem(Part(s, k, i), s.categories[k].items[i].external)
  {
  }

  // ---------- reading the menu back: catalog.go, getMenu ----------

  datatype ReadItem = ReadItem(
    id: Id, external: Id, name: string, description: string, price: int, currency: Currency, available: bool)

  datatype ReadCategory = ReadCategory(external: Id, name: string, items: seq<ReadItem>)

  datatype Menu = Menu(version: int, categories: seq<ReadCategory>)

  datatype ReadError = MenuNotFound | InactiveCategory

  ghost predicate SortedBy<T(!new)>(s: seq<T>, before: (T, T) -> bool) {
    forall j, k :: 0 <= j < k < |s| ==> before(s[j], s[k])
  }

  /** `ORDER BY position, external_id` */
  predicate CategoryBefore(t: Tables, a: Id, b: Id) {
    && a in t.categories && b in t.categories
    && (|| t.categories[a].position < t.categories[b].position
        || (t.categories[a].position == t.categories[b].position && a < b))
  }

  predicate ItemBefore(t: Tables, a: Id, b: Id) {
    && a in t.items && b in t.items
    && (t.items[a].position < t.items[b].position || (t.items[a].position == t.items[b].position && a < b))
  }

  /** `ORDER BY c.position, c.external_id, i.position, i.external_id` on pairs (category, item). */
  predicate PairBefore(t: Tables, a: (Id, Id), b: (Id, Id)) {
    CategoryBefore(t, a.0, b.0) || (a.0 == b.0 && ItemBefore(t, a.1, b.1))
  }

  /** The active items of active categories. */
  predicate InJoin(t: Tables, category: Id, item: Id) {
    && category in t.categories && item in t.items
    && t.categories[category].active && t.items[item].active
    && t.items[item].category == t.categories[category].id
  }

  /** What the two queries of one repeatable-read transaction may return. */
  ghost predicate CategoryAnswer(t: Tables, rows: seq<Id>) {
    && (forall c :: c in rows <==> c in t.categories && t.categories[c].active)
    && SortedBy(rows, (a, b) => CategoryBefore(t, a, b))
  }

  ghost predicate ItemAnswer(t: Tables, rows: seq<(Id, Id)>) {
    && (forall row :: row in rows <==> InJoin(t, row.0, row.1))
    && SortedBy(rows, (a, b) => PairBefore(t, a, b))
  }

  function ReadRow(t: Tables, external: Id): ReadItem
    requires external in t.items
  {
    var row := t.items[external];
    ReadItem(row.id, external, row.name, row.description, row.price, row.currency, row.available)
  }

  /** The items that the rows of the join give to one category, in row order. */
  function Of(rows: seq<(Id, Id)>, category: Id): seq<Id> {
    if rows == [] then []
    else
      var last := rows[|rows| - 1];
      Of(rows[..|rows| - 1], category) + (if last.0 == category then [last.1] else [])
  }

  lemma {:induction false} OfKeepsRows(rows: seq<(Id, Id)>, category: Id, e: Id)
    ensures e in Of(rows, category) <==> (category, e) in rows
  {
    if rows != [] {
      OfKeepsRows(rows[..|rows| - 1], category, e);
      assert rows == rows[..|rows| - 1] + [rows[|rows| - 1]];
    }
  }

  lemma OfAreItems(t: Tables, rows: seq<(Id, Id)>, category: Id)
    requires forall row :: row in rows ==> row.1 in t.items
    ensures forall i :: 0 <= i < |Of(rows, category)| ==> Of(rows, category)[i] in t.items
  {
  }

  lemma {:induction false} OfIsSorted(t: Tables, rows: seq<(Id, Id)>, category: Id)
    requires SortedBy(rows, (a, b) => PairBefore(t, a, b))
    ensures SortedBy(Of(rows, category), (a, b) => ItemBefore(t, a, b))
  {
    if rows != [] {
      var front, last := rows[..|rows| - 1], rows[|rows| - 1];
      OfIsSorted(t, front, category);
      forall e | e in Of(front, category) && last.0 == category ensures ItemBefore(t, e, last.1) {
        OfKeepsRows(front, category, e);
        var j :| 0 <= j < |front| && front[j] == (category, e);
        assert PairBefore(t, rows[j], rows[|rows| - 1]);
      }
    }
  }

  lemma SameEmptiness<T(!new)>(a: seq<T>, b: seq<T>)
    requires forall x :: x in a <==> x in b
    ensures a == [] <==> b == []
  {
    if a != [] {
      assert a[0] in a;
    }
    if b != [] {
      assert b[0] in b;
    }
  }

  lemma LastIsGreatest<T(!new)>(a: seq<T>, before: (T, T) -> bool, x: T)
    requires SortedBy(a, before) && x in a
    ensures x == a[|a| - 1] || before(x, a[|a| - 1])
  {
  }

  /** There is only one strictly sorted arrangement of the same elements. */
  lemma {:induction false} SortedOnce<T(!new)>(a: seq<T>, b: seq<T>, before: (T, T) -> bool)
    requires SortedBy(a, before) && SortedBy(b, before)
    requires forall x, y :: before(x, y) ==> !before(y, x)
    requires forall x :: x in a <==> x in b
    ensures a == b
  {
    SameEmptiness(a, b);
    if a != [] {
      var x, y := a[|a| - 1], b[|b| - 1];
      LastIsGreatest(a, before, y);
      LastIsGreatest(b, before, x);
      var front, rest := a[..|a| - 1], b[..|b| - 1];
      forall z ensures z in front <==> z in rest {
        InFront(a, before, z);
        InFront(b, before, z);
      }
      SortedOnce(front, rest, before);
      assert a == front + [x] && b == rest + [x];
    }
  }

  lemma InFront<T(!new)>(a: seq<T>, before: (T, T) -> bool, z: T)
    requires a != [] && SortedBy(a, before) && forall x, y :: before(x, y) ==> !before(y, x)
    ensures z in a[..|a| - 1] <==> z in a && z != a[|a| - 1]
  {
    LastIsNew(a, before);
    hide SortedBy;
    assert a == a[..|a| - 1] + [a[|a| - 1]];
  }

  lemma LastIsNew<T(!new)>(a: seq<T>, before: (T, T) -> bool)
    requires a != [] && SortedBy(a, before) && forall x, y :: before(x, y) ==> !before(y, x)
    ensures a[|a| - 1] !in a[..|a| - 1]
  {
  }

  /** The rows that the two queries returned, on any state of the tables they were read from. */
  ghost predicate RowsExist(t: Tables, categoryRows: seq<Id>, itemRows: seq<(Id, Id)>) {
    && (forall c :: c in categoryRows ==> c in t.categories)
    && (forall row :: row in itemRows ==> row.1 in t.items)
    && (forall j, k :: 0 <= j < k < |categoryRows| ==> categoryRows[j] != categoryRows[k])
  }

  /** The menu assembled from the two answers. */
  ghost function ReadMenu(t: Tables, categoryRows: seq<Id>, itemRows: seq<(Id, Id)>): Tx<Menu, ReadError>
    requires RowsExist(t, categoryRows, itemRows)
  {
    if t.version.None? then Rollback(MenuNotFound)
    else if exists row :: row in itemRows && row.0 !in categoryRows then Rollback(InactiveCategory)
    else Commit(Menu(t.version.value, Assembled(t, categoryRows, itemRows)))
  }

  ghost function Assembled(t: Tables, categoryRows: seq<Id>, itemRows: seq<(Id, Id)>): (r: seq<ReadCategory>)
    requires RowsExist(t, categoryRows, itemRows)
    ensures |r| == |categoryRows|
  {
    seq(|categoryRows|, k requires 0 <= k < |categoryRows| => ReadOf(t, itemRows, categoryRows[k]))
  }

  ghost function ReadOf(t: Tables, itemRows: seq<(Id, Id)>, category: Id): ReadCategory
    requires category in t.categories && forall row :: row in itemRows ==> row.1 in t.items
  {
    OfAreItems(t, itemRows, category);
    ReadCategory(category, t.categories[category].name, ReadRows(t, Of(itemRows, category)))
  }

  function ReadRows(t: Tables, items: seq<Id>): (r: seq<ReadItem>)
    requires forall i :: 0 <= i < |items| ==> items[i] in t.items
    ensures |r| == |items|
  {
    seq(|items|, i requires 0 <= i < |items| => ReadRow(t, items[i]))
  }

  /** The snapshot as a reader sees it: its own categories and items in its own order, with the row ids. */
  function Displayed(t: Tables, s: Snapshot): Menu {
    Menu(s.version, seq(|s.categories|, k requires 0 <= k < |s.categories| => DisplayedCategory(t, s.categories[k])))
  }

  function DisplayedCategory(t: Tables, category: Category): ReadCategory {
    ReadCategory(category.external, category.name,
      seq(|category.items|, x requires 0 <= x < |category.items| => DisplayedItem(t, category.items[x])))
  }

  function DisplayedItem(t: Tables, item: Item): ReadItem {
    ReadItem(if item.external in t.items then t.items[item.external].id else 0,
             item.external, item.name, item.description, item.price, item.currency, item.available)
  }

  function CategoryIds(s: Snapshot): seq<Id> {
    seq(|s.categories|, k requires 0 <= k < |s.categories| => s.categories[k].external)
  }

  function ItemIds(category: Category): seq<Id> {
    seq(|category.items|, x requires 0 <= x < |category.items| => category.items[x].external)
  }

  lemma CategoriesInOrder(t: Tables, s: Snapshot, rows: seq<Id>)
    requires Shows(t, s) && CategoryAnswer(t, rows)
    ensures rows == CategoryIds(s)
  {
    var ids := CategoryIds(s);
    forall c ensures c in ids <==> c in t.categories && t.categories[c].active {
      if c in t.categories && t.categories[c].active {
        assert ListsCategory(s, c);
        var k :| 0 <= k < |s.categories| && s.categories[k].external == c;
        assert ids[k] == c;
      }
    }
    SortedOnce(rows, ids, (a, b) => CategoryBefore(t, a, b));
  }

  /** The join gives a category of the snapshot exactly its own items. */
  lemma JoinFollowsSnapshot(t: Tables, s: Snapshot, k: nat, e: Id)
    requires UniqueIds(t) && Shows(t, s) && UniqueCategories(s.categories) && k < |s.categories|
    ensures InJoin(t, s.categories[k].external, e) <==> e in ItemIds(s.categories[k])
  {
    var category := s.categories[k];
    if InJoin(t, category.external, e) {
      assert ListsItem(s, e);
      var j, x :| 0 <= j < |s.categories| && 0 <= x < |s.categories[j].items| && s.categories[j].items[x].external == e;
      assert s.categories[j].external == category.external;
      assert ItemIds(category)[x] == e;
    }
    if e in ItemIds(category) {
      var x :| 0 <= x < |category.items| && category.items[x].external == e;
      assert ItemMatches(t.items[e], category.items[x], t.categories[category.external].id, x);
    }
  }

  lemma ItemsInOrder(t: Tables, s: Snapshot, rows: seq<(Id, Id)>, k: nat)
    requires UniqueIds(t) && Shows(t, s) && UniqueCategories(s.categories) && k < |s.categories| && ItemAnswer(t, rows)
    ensures Of(rows, s.categories[k].external) == ItemIds(s.categories[k])
  {
    var category := s.categories[k];
    forall e ensures e in Of(rows, category.external) <==> e in ItemIds(category) {
      OfKeepsRows(rows, category.external, e);
      JoinFollowsSnapshot(t, s, k, e);
    }
    OfIsSorted(t, rows, category.external);
    SortedOnce(Of(rows, category.external), ItemIds(category), (a, b) => ItemBefore(t, a, b));
  }

  lemma CategoryReadsBack(t: Tables, s: Snapshot, rows: seq<(Id, Id)>, k: nat)
    requires UniqueIds(t) && Shows(t, s) && UniqueCategories(s.categories) && k < |s.categories| && ItemAnswer(t, rows)
    requires forall row :: row in rows ==> row.1 in t.items
    ensures s.categories[k].external in t.categories
    ensures ReadOf(t, rows, s.categories[k].external) == DisplayedCategory(t, s.categories[k])
  {
    hide ItemAnswer, InJoin, UniqueCategories, UniqueIds;
    ItemsInOrder(t, s, rows, k);
    var category := s.categories[k];
    forall x | 0 <= x < |category.items|
      ensures ReadRow(t, ItemIds(category)[x]) == DisplayedItem(t, category.items[x])
    {
      assert ItemMatches(t.items[category.items[x].external], category.items[x], t.categories[category.external].id, x);
    }
    assert ReadRows(t, ItemIds(category)) == DisplayedCategory(t, category).items;
  }

  lemma AnswersExist(t: Tables, categoryRows: seq<Id>, itemRows: seq<(Id, Id)>)
    requires CategoryAnswer(t, categoryRows) && ItemAnswer(t, itemRows)
    ensures RowsExist(t, categoryRows, itemRows)
    ensures forall row :: row in itemRows ==> row.0 in categoryRows
  {
  }

  /** Whatever order the database finds the rows in, tables that show a snapshot read back as exactly that
      snapshot; an item of an inactive category is never met. */
  lemma RoundTrip(t: Tables, categoryRows: seq<Id>, itemRows: seq<(Id, Id)>)
    requires Catalog.Inv(t) && CategoryAnswer(t, categoryRows) && ItemAnswer(t, itemRows)
    ensures RowsExist(t, categoryRows, itemRows)
    ensures ReadMenu(t, categoryRows, itemRows) ==
      if t.version.None? then Rollback(MenuNotFound) else Commit(Displayed(t, t.accepted.value))
  {
    hide CategoryAnswer, ItemAnswer;
    AnswersExist(t, categoryRows, itemRows);
    if t.version.Some? {
      var s := t.accepted.value;
      CategoriesInOrder(t, s, categoryRows);
      forall k | 0 <= k < |s.categories|
        ensures ReadOf(t, itemRows, categoryRows[k]) == DisplayedCategory(t, s.categories[k])
      {
        CategoryReadsBack(t, s, itemRows, k);
      }
      assert ReadMenu(t, categoryRows, itemRows).state.categories == Displayed(t, s).categories;
    }
  }

  /** One more row of the join goes to the end of its own category. */
  lemma RowAppends(t: Tables, itemRows: seq<(Id, Id)>, i: nat, category: Id)
    requires category in t.categories && i < |itemRows| && forall row :: row in itemRows ==> row.1 in t.items
    ensures ReadOf(t, itemRows[..i + 1], category) ==
      var before := ReadOf(t, itemRows[..i], category);
      if itemRows[i].0 == category then before.(items := before.items + [ReadRow(t, itemRows[i].1)]) else before
  {
    assert itemRows[..i + 1][..i] == itemRows[..i];
    OfAreItems(t, itemRows[..i + 1], category);
  }

  lemma RowLands(t: Tables, categoryRows: seq<Id>, itemRows: seq<(Id, Id)>, i: nat, k: nat)
    requires RowsExist(t, categoryRows, itemRows)
    requires i < |itemRows| && k < |categoryRows| && categoryRows[k] == itemRows[i].0
    ensures RowsExist(t, categoryRows, itemRows[..i]) && RowsExist(t, categoryRows, itemRows[..i + 1])
    ensures var before := Assembled(t, categoryRows, itemRows[..i]);
      Assembled(t, categoryRows, itemRows[..i + 1]) ==
        before[k := before[k].(items := before[k].items + [ReadRow(t, itemRows[i].1)])]
  {
    hide ReadOf;
    forall j | 0 <= j < |categoryRows|
      ensures ReadOf(t, itemRows[..i + 1], categoryRows[j]) ==
        var before := ReadOf(t, itemRows[..i], categoryRows[j]);
        if j == k then before.(items := before.items + [ReadRow(t, itemRows[i].1)]) else before
    {
      RowAppends(t, itemRows, i, categoryRows[j]);
    }
  }

  class Repository {
    var categories: map<Id, CategoryRow>
    var items: map<Id, ItemRow>
    var version: Option<int>
    var accepted: Option<Snapshot>
    var nextId: Id // the source of fresh row ids

    function Rows(): Tables
      reads this
    {
      Tables(categories, items, version, accepted)
    }

    ghost predicate Valid()
      reads this
    {
      Catalog.Inv(Rows()) && IdsBelow(Rows(), nextId)
    }

    constructor ()
      ensures Valid() && Rows() == EMPTY_TABLES
    {
      categories, items, version, accepted, nextId := map[], map[], None, None, 0;
    }

    method Deactivate()
      modifies `categories, `items
      ensures Rows() == Deactivated(old(Rows()))
    {
      items := map e | e in items :: items[e].(active := false, available := false);
      categories := map e | e in categories :: categories[e].(active := false);
    }

    method WriteItems(ghost was: Tables, snapshot: Snapshot, k: nat, categoryId: Id)
      requires k < |snapshot.categories| && Catalog.UniqueItems(snapshot.categories)
      requires Written(was, Rows(), Part(snapshot, k, 0)) && IdsBelow(Rows(), nextId)
      requires snapshot.categories[k].external in categories &&
           categories[snapshot.categories[k].external].id == categoryId
      modifies `items, `nextId
      ensures Written(was, Rows(), Prefix(snapshot, k + 1)) && IdsBelow(Rows(), nextId)
    {
      hide Written, IdsBelow, Catalog.UniqueItems;
      var category := snapshot.categories[k];
      for position := 0 to |category.items|
        invariant Written(was, Rows(), Part(snapshot, k, position)) && IdsBelow(Rows(), nextId)
      {
        var item := category.items[position];
        ghost var before := Rows();
        ItemIsNew(snapshot, k, position);
        ItemWritten(was, before, Part(snapshot, k, position), item, nextId);
        PartGrows(snapshot, k, position);
        var id := if item.external in items then items[item.external].id else nextId;
        nextId := nextId + 1;
        items := items[item.external := ItemRow(id, categoryId, item.name, item.description,
                                                item.price, item.currency, item.available, true, position)];
        assert Rows() == ItemUpserted(before, Part(snapshot, k, position), item, nextId - 1);
      }
      PartsMeet(snapshot, k);
    }

    method WriteSnapshot(ghost was: Tables, snapshot: Snapshot)
      requires UniqueCategories(snapshot.categories) && Catalog.UniqueItems(snapshot.categories)
      requires Written(was, Rows(), Prefix(snapshot, 0)) && IdsBelow(Rows(), nextId)
      modifies `categories, `items, `nextId
      ensures Written(was, Rows(), snapshot) && IdsBelow(Rows(), nextId)
    {
      hide Written, IdsBelow, Catalog.UniqueItems, UniqueCategories;
      for position := 0 to |snapshot.categories|
        invariant Written(was, Rows(), Prefix(snapshot, position)) && IdsBelow(Rows(), nextId)
      {
        var category := snapshot.categories[position];
        ghost var before := Rows();
        CategoryIsNew(snapshot, position);
        CategoryWritten(was, before, Prefix(snapshot, position), category, nextId);
        PartsMeet(snapshot, position);
        var id := if category.external in categories then categories[category.external].id else nextId;
        nextId := nextId + 1;
        categories := categories[category.external := CategoryRow(id, category.name, position, true)];
        assert Rows() == UpsertCategory(before, category, nextId - 1, position);
        WriteItems(was, snapshot, position, id);
      }
      assert Prefix(snapshot, |snapshot.categories|) == snapshot;
    }

    method ReplaceMenu(snapshot: Snapshot) returns (error: Option<PublishError>)
      requires Valid() && ValidSnapshot(snapshot)
      modifies this
      ensures Valid() && Replaces(old(Rows()), Rows(), snapshot)
      ensures error == match Judge(old(Rows()), snapshot) { case Refuse(e) => Some(e) case _ => None }
      ensures error == Some(StaleVersion) <==> old(version).Some? && snapshot.version < old(version).value
      ensures error == Some(VersionConflict) <==>
        old(version) == Some(snapshot.version) && old(accepted) != Some(snapshot)
      ensures error.None? <==> version == Some(snapshot.version) && accepted == Some(snapshot)
      ensures if error.None? && old(version) != Some(snapshot.version) then Published(old(Rows()), Rows(), snapshot)
        else Rows() == old(Rows())
    {
      hide Catalog.Inv, Published, Written, IdsBelow, ValidSnapshot;
      if version.Some? {
        if snapshot.version < version.value {
          return Some(StaleVersion);
        }
        if snapshot.version == version.value {
          return if accepted == Some(snapshot) then None else Some(VersionConflict);
        }
      }
      ghost var was := Rows();
      ValidMeansUnique(was, snapshot);
      DeactivatedShowsNothing(was, snapshot);
      IdsStayBelow(was, nextId);
      Deactivate();
      WriteSnapshot(was, snapshot);
      ghost var written := Rows();
      version, accepted := Some(snapshot.version), Some(snapshot);
      VersionChangesNothing(was, written, Rows(), snapshot, nextId);
      ReplaceKeepsInv(was, Rows(), snapshot);
      error := None;
    }

    method ListCategories(categoryRows: seq<Id>) returns (listed: seq<ReadCategory>)
      requires RowsExist(Rows(), categoryRows, [])
      ensures listed == Assembled(Rows(), categoryRows, [])
    {
      listed := [];
      for k := 0 to |categoryRows|
        invariant |listed| == k
        invariant forall j :: 0 <= j < k ==> listed[j] == ReadOf(Rows(), [], categoryRows[j])
      {
        listed := listed + [ReadCategory(categoryRows[k], categories[categoryRows[k]].name, [])];
      }
    }

    method GetMenu(categoryRows: seq<Id>, itemRows: seq<(Id, Id)>) returns (reply: Tx<Menu, ReadError>)
      requires RowsExist(Rows(), categoryRows, itemRows)
      ensures reply == ReadMenu(Rows(), categoryRows, itemRows)
    {
      hide ReadOf, Assembled;
      if version.None? {
        return Rollback(MenuNotFound);
      }
      var listed := ListCategories(categoryRows);
      var index := Indexed(categoryRows);
      assert itemRows[..0] == [];
      for i := 0 to |itemRows|
        invariant forall j :: 0 <= j < i ==> itemRows[j].0 in categoryRows
        invariant listed == Assembled(Rows(), categoryRows, itemRows[..i])
      {
        var row := itemRows[i];
        if row.0 !in index {
          return Rollback(InactiveCategory);
        }
        var k := index[row.0];
        RowLands(Rows(), categoryRows, itemRows, i, k);
        listed := listed[k := listed[k].(items := listed[k].items + [ReadRow(Rows(), row.1)])];
      }
      assert itemRows[..|itemRows|] == itemRows;
      return Commit(Menu(version.value, listed));
    }
  }

  method Indexed(rows: seq<Id>) returns (index: map<Id, nat>)
    requires forall j, k :: 0 <= j < k < |rows| ==> rows[j] != rows[k]
    ensures forall c :: c in index <==> c in rows
    ensures forall c :: c in index ==> index[c] < |rows| && rows[index[c]] == c
  {
    index := map[];
    for k := 0 to |rows|
      invariant forall c :: c in index <==> c in rows[..k]
      invariant forall c :: c in index ==> index[c] < k && rows[index[c]] == c
    {
      index := index[rows[k] := k];
      assert rows[..k + 1] == rows[..k] + [rows[k]];
    }
    assert rows[..|rows|] == rows;
  }

  lemma ValidMeansUnique(t: Tables, s: Snapshot)
    requires Catalog.Inv(t) && ValidSnapshot(s)
    ensures UniqueIds(t) && UniqueCategories(s.categories) && Catalog.UniqueItems(s.categories)
    ensures Prefix(s, 0) == s.(categories := [])
  {
  }

  lemma IdsStayBelow(t: Tables, next: Id)
    requires IdsBelow(t, next)
    ensures IdsBelow(Deactivated(t), next)
  {
  }

  lemma VersionChangesNothing(was: Tables, written: Tables, t: Tables, s: Snapshot, next: Id)
    requires IdsBelow(written, next)
    requires Written(was, written, s) && t.categories == written.categories && t.items == written.items
    requires t.version == Some(s.version) && t.accepted == Some(s)
    ensures Published(was, t, s) && IdsBelow(t, next)
  {
  }
}
