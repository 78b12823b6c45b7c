/** The services' checks of incoming requests, as loops over a map of ids already seen. Text lengths,
    identifier and phone formats are left out. */
module Validation {
  import opened Types
  import opened Amounts
  import C = Catalog
  import K = Checkout
  import V = Venue

  method ValidateCheckout(request: K.Request) returns (ok: bool)
    ensures ok <==> K.ValidRequest(request)
    ensures ok <==>
      && request.menuVersion >= 1 && 1 <= |request.items| <= 100
      && (forall i :: 0 <= i < |request.items| ==> 1 <= request.items[i].quantity <= 100)
      && (forall i, j :: 0 <= i < j < |request.items| ==> request.items[i].menuItem != request.items[j].menuItem)
  {
    if request.menuVersion < 1 || |request.items| < 1 || |request.items| > 100 {
      return false;
    }
    var seen: set<Id> := {};
    for i := 0 to |request.items|
      invariant forall k :: 0 <= k < i ==> 1 <= request.items[k].quantity <= 100
      invariant forall j, k :: 0 <= j < k < i ==> request.items[j].menuItem != request.items[k].menuItem
      invariant forall x :: x in seen <==> exists k :: 0 <= k < i && request.items[k].menuItem == x
    {
      var item := request.items[i];
      if item.quantity < 1 || item.quantity > 100 {
        return false;
      }
      if item.menuItem in seen {
        return false;
      }
      seen := seen + {item.menuItem};
    }
    return true;
  }

  method ValidateCommand(command: OrderCommand) returns (ok: bool)
    ensures ok <==> V.ValidCommand(command)
    ensures ok <==>
      && command.menuVersion >= 1 && 1 <= |command.lines| <= 100
      && (forall i :: 0 <= i < |command.lines| ==>
            && 1 <= command.lines[i].quantity <= 100 && command.lines[i].price >= 0
            && command.lines[i].price * command.lines[i].quantity <= MAX_INT64)
      && (forall i, j :: 0 <= i < j < |command.lines| ==> command.lines[i].item != command.lines[j].item)
  {
    if command.menuVersion < 1 || |command.lines| < 1 || |command.lines| > 100 {
      return false;
    }
    var seen: set<Id> := {};
    for i := 0 to |command.lines|
      invariant forall k :: 0 <= k < i ==> V.ValidLine(command.lines[k])
      invariant forall j, k :: 0 <= j < k < i ==> command.lines[j].item != command.lines[k].item
      invariant forall x :: x in seen <==> exists k :: 0 <= k < i && command.lines[k].item == x
    {
      var line := command.lines[i];
      if line.price >= 0 && line.quantity >= 0 {
        GuardIsExact(line.price, line.quantity);
      }
      if line.quantity < 1 || line.quantity > 100 || line.price < 0
        || (line.price > 0 && line.quantity > MAX_INT64 / line.price)
      {
        assert !V.ValidLine(command.lines[i]);
        return false;
      }
      if line.item in seen {
        return false;
      }
      seen := seen + {line.item};
    }
    return true;
  }

  // ---------- snapshots: item ids are unique over all categories ----------

  predicate IsItem(categories: seq<C.Category>, j: nat, y: nat) {
    j < |categories| && y < |categories[j].items|
  }

  /** The id stands at a position before item `x` of category `k`. */
  ghost predicate Earlier(categories: seq<C.Category>, k: nat, x: nat, external: Id) {
    exists j: nat, y: nat ::
      IsItem(categories, j, y) && (j < k || (j == k && y < x)) && categories[j].items[y].external == external
  }

  ghost predicate GoodItem(categories: seq<C.Category>, j: nat, y: nat)
    requires IsItem(categories, j, y)
  {
    0 <= categories[j].items[y].price && !Earlier(categories, j, y, categories[j].items[y].external)
  }

  lemma NextItem(categories: seq<C.Category>, k: nat, x: nat, external: Id)
    requires IsItem(categories, k, x)
    ensures Earlier(categories, k, x + 1, external) <==>
      Earlier(categories, k, x, external) || external == categories[k].items[x].external
  {
  }

  lemma NextCategory(categories: seq<C.Category>, k: nat, external: Id)
    requires k < |categories|
    ensures Earlier(categories, k + 1, 0, external) <==> Earlier(categories, k, |categories[k].items|, external)
  {
  }

  lemma AllGoodMeansUnique(categories: seq<C.Category>)
    ensures (forall j: nat, y: nat :: IsItem(categories, j, y) ==> GoodItem(categories, j, y)) <==>
      && C.UniqueItems(categories)
      && (forall k, x :: 0 <= k < |categories| && 0 <= x < |categories[k].items| ==> 0 <= categories[k].items[x].price)
  {
    if forall j: nat, y: nat :: IsItem(categories, j, y) ==> GoodItem(categories, j, y) {
      forall j, k, x, y |
        && 0 <= j < |categories| && 0 <= k < |categories|
        && 0 <= x < |categories[j].items| && 0 <= y < |categories[k].items|
        && categories[j].items[x].external == categories[k].items[y].external
        ensures j == k && x == y
      {
        assert IsItem(categories, j, x) && IsItem(categories, k, y);
        assert GoodItem(categories, j, x) && GoodItem(categories, k, y);
      }
      forall k, x | 0 <= k < |categories| && 0 <= x < |categories[k].items| ensures 0 <= categories[k].items[x].price {
        assert IsItem(categories, k, x);
      }
    }
  }

  method ValidateItems(categories: seq<C.Category>, k: nat, before: set<Id>) returns (ok: bool, seen: set<Id>)
    requires k < |categories| && forall e :: e in before <==> Earlier(categories, k, 0, e)
    ensures ok <==> forall y: nat :: IsItem(categories, k, y) ==> GoodItem(categories, k, y)
    ensures ok ==> forall e :: e in seen <==> Earlier(categories, k + 1, 0, e)
  {
    hide Earlier;
    seen := before;
    for i := 0 to |categories[k].items|
      invariant forall y: nat :: y < i ==> GoodItem(categories, k, y)
      invariant forall e :: e in seen <==> Earlier(categories, k, i, e)
    {
      var item := categories[k].items[i];
      if item.price < 0 || item.external in seen {
        assert IsItem(categories, k, i) && !GoodItem(categories, k, i);
        return false, seen;
      }
      forall e ensures Earlier(categories, k, i + 1, e) <==> Earlier(categories, k, i, e) || e == item.external {
        NextItem(categories, k, i, e);
      }
      seen := seen + {item.external};
    }
    forall e ensures Earlier(categories, k + 1, 0, e) <==> Earlier(categories, k, |categories[k].items|, e) {
      NextCategory(categories, k, e);
    }
    ok := true;
  }

  method ValidateSnapshot(snapshot: C.Snapshot) returns (ok: bool)
    ensures ok <==> C.ValidSnapshot(snapshot)
    ensures ok ==>
      && snapshot.version >= 1 && 1 <= |snapshot.categories| <= 100
      && forall k :: 0 <= k < |snapshot.categories| ==> |snapshot.categories[k].items| <= 1000
  {
    hide Earlier, GoodItem;
    var categories := snapshot.categories;
    if snapshot.version < 1 || |categories| < 1 || |categories| > 100 {
      return false;
    }
    AllGoodMeansUnique(categories);
    var names: set<Id> := {};
    var items: set<Id> := {};
    NothingEarlier(categories);
    for k := 0 to |categories|
      invariant forall j :: 0 <= j < k ==> |categories[j].items| <= 1000
      invariant forall i, j :: 0 <= i < j < k ==> categories[i].external != categories[j].external
      invariant forall x :: x in names <==> exists j :: 0 <= j < k && categories[j].external == x
      invariant forall j: nat, y: nat :: j < k && IsItem(categories, j, y) ==> GoodItem(categories, j, y)
      invariant forall e :: e in items <==> Earlier(categories, k, 0, e)
    {
      if categories[k].external in names {
        return false;
      }
      names := names + {categories[k].external};
      if |categories[k].items| > 1000 {
        return false;
      }
      ok, items := ValidateItems(categories, k, items);
      if !ok {
        return false;
      }
    }
    return true;
  }

  lemma NothingEarlier(categories: seq<C.Category>)
    ensures forall e :: !Earlier(categories, 0, 0, e)
  {
  }
}
