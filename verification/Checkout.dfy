/** Checkout: the canonical form of a request, the price of a basket, and the order it becomes. */
module Checkout {
  import opened Types
  import opened Amounts
  import Catalog

  datatype RequestItem = RequestItem(menuItem: Id, quantity: int)

  /** Delivery details are opaque here. */
  datatype Request = Request(customer: string, venue: Id, menuVersion: int, items: seq<RequestItem>, delivery: string)

  datatype OrderItem = OrderItem(menuItem: Id, external: Id, name: string, quantity: int, price: int, total: int)

  datatype Basket = Basket(items: seq<OrderItem>, amount: int)

  datatype Error =
    | VenueNotFound | VenueClosed | MenuChanged | ItemsUnavailable | AmountOverflow | MinimumOrder | KeyReused | Invalid

  /** The row of `venues` with its menu. */
  datatype Storefront = Storefront(id: Id, accepting: bool, currency: Currency, minimum: int, tables: Catalog.Tables)

  // ---------- service/orders.go: validateCheckout (text and phone formats are left out) ----------

  ghost predicate Distinct(items: seq<RequestItem>) {
    forall i, j :: 0 <= i < j < |items| ==> items[i].menuItem != items[j].menuItem
  }

  ghost predicate ValidRequest(r: Request) {
    && r.menuVersion >= 1
    && 1 <= |r.items| <= 100
    && (forall i :: 0 <= i < |r.items| ==> 1 <= r.items[i].quantity <= 100)
    && Distinct(r.items)
  }

  // ---------- service/orders.go: checkoutHash ----------

  ghost predicate Sorted(items: seq<RequestItem>) {
    forall i, j :: 0 <= i < j < |items| ==> items[i].menuItem <= items[j].menuItem
  }

  function Insert(items: seq<RequestItem>, x: RequestItem): seq<RequestItem> {
    if items == [] || items[|items| - 1].menuItem <= x.menuItem then items + [x]
    else Insert(items[..|items| - 1], x) + [items[|items| - 1]]
  }

  lemma {:induction false} InsertAdds(items: seq<RequestItem>, x: RequestItem)
    ensures multiset(Insert(items, x)) == multiset(items) + multiset{x}
  {
    if items != [] {
      InsertAdds(items[..|items| - 1], x);
      assert items == items[..|items| - 1] + [items[|items| - 1]];
    }
  }

  lemma {:induction false} InsertKeepsSorted(items: seq<RequestItem>, x: RequestItem)
    requires Sorted(items)
    ensures Sorted(Insert(items, x))
  {
    if items != [] && items[|items| - 1].menuItem > x.menuItem {
      var front, last := items[..|items| - 1], items[|items| - 1];
      InsertKeepsSorted(front, x);
      InsertAdds(front, x);
      forall i | 0 <= i < |Insert(front, x)| ensures Insert(front, x)[i].menuItem <= last.menuItem {
        var y := Insert(front, x)[i];
        assert y in multiset(Insert(front, x));
        assert y == x || y in front;
      }
    }
  }

  /** One sorted arrangement; `sort.Slice` may produce any (see CanonicalFormIsDetermined). */
  function Sort(items: seq<RequestItem>): (r: seq<RequestItem>)
    ensures multiset(r) == multiset(items) && Sorted(r)
  {
    if items == [] then []
    else
      var front, last := items[..|items| - 1], items[|items| - 1];
      assert items == front + [last];
      InsertAdds(Sort(front), last);
      InsertKeepsSorted(Sort(front), last);
      Insert(Sort(front), last)
  }

  /** What the request hash is computed from; the hash itself is taken to be injective. */
  function Canonical(r: Request): Request {
    r.(items := Sort(r.items))
  }

  lemma SameElements(a: seq<RequestItem>, b: seq<RequestItem>)
    requires multiset(a) == multiset(b)
    ensures |a| == |b|
    ensures forall x :: x in a <==> x in b
  {
    assert |multiset(a)| == |a| && |multiset(b)| == |b|;
    forall x ensures x in a <==> x in b {
      assert x in multiset(a) <==> x in multiset(b);
    }
  }

  lemma DistinctMeansOnce(a: seq<RequestItem>)
    requires Distinct(a)
    ensures forall x :: multiset(a)[x] <= 1
  {
    if a != [] {
      var front, last := a[..|a| - 1], a[|a| - 1];
      assert a == front + [last];
      DistinctMeansOnce(front);
      assert last !in front;
    }
  }

  lemma PermutedIsDistinct(a: seq<RequestItem>, b: seq<RequestItem>)
    requires multiset(a) == multiset(b) && Distinct(a)
    ensures Distinct(b)
  {
    DistinctMeansOnce(a);
    SameElements(a, b);
    forall i, j | 0 <= i < j < |b| ensures b[i].menuItem != b[j].menuItem {
      if b[i] == b[j] {
        TwiceCounted(b, i, j);
        assert false;
      }
      assert b[i] in a && b[j] in a;
    }
  }

  lemma TwiceCounted(b: seq<RequestItem>, i: nat, j: nat)
    requires i < j < |b| && b[i] == b[j]
    ensures multiset(b)[b[i]] >= 2
  {
    assert b == b[..j] + [b[j]] + b[j + 1..];
    assert b[..j][i] == b[i];
    assert b[i] in multiset(b[..j]);
  }

  lemma SameLast(a: seq<RequestItem>, b: seq<RequestItem>)
    requires multiset(a) == multiset(b) && Sorted(a) && Sorted(b) && Distinct(a) && a != []
    ensures b != [] && a[|a| - 1] == b[|b| - 1]
  {
    SameElements(a, b);
    var x, y := a[|a| - 1], b[|b| - 1];
    assert x in b && y in a;
    assert x.menuItem == y.menuItem;
  }

  lemma DropLast(a: seq<RequestItem>, b: seq<RequestItem>)
    requires multiset(a) == multiset(b) && a != [] && b != [] && a[|a| - 1] == b[|b| - 1]
    ensures multiset(a[..|a| - 1]) == multiset(b[..|b| - 1])
  {
    WithoutLast(a);
    WithoutLast(b);
  }

  lemma WithoutLast(a: seq<RequestItem>)
    requires a != []
    ensures multiset(a[..|a| - 1]) == multiset(a) - multiset{a[|a| - 1]}
  {
    assert a == a[..|a| - 1] + [a[|a| - 1]];
  }

  /** With unique ids there is only one sorted arrangement, so the unstable sort is deterministic. */
  lemma {:induction false} CanonicalFormIsDetermined(a: seq<RequestItem>, b: seq<RequestItem>)
    requires multiset(a) == multiset(b) && Sorted(a) && Sorted(b) && Distinct(a)
    ensures a == b
  {
    if a == [] {
      SameElements(a, b);
    } else {
      SameLast(a, b);
      DropLast(a, b);
      CanonicalFormIsDetermined(a[..|a| - 1], b[..|b| - 1]);
      assert a == a[..|a| - 1] + [a[|a| - 1]] && b == b[..|b| - 1] + [b[|b| - 1]];
    }
  }

  /** Two valid requests hash alike exactly when they differ at most in the order of their items. */
  lemma SameHash(r: Request, s: Request)
    requires ValidRequest(r) && ValidRequest(s)
    ensures Canonical(r) == Canonical(s) <==> multiset(r.items) == multiset(s.items) && r.(items := s.items) == s
  {
    if multiset(r.items) == multiset(s.items) {
      PermutedIsDistinct(r.items, Sort(r.items));
      CanonicalFormIsDetermined(Sort(r.items), Sort(s.items));
    }
  }

  /** Whatever order an unstable sort by id leaves the copied items in, the canonical form is the same. */
  lemma AnySortIsCanonical(r: Request, arranged: seq<RequestItem>)
    requires ValidRequest(r) && multiset(arranged) == multiset(r.items) && Sorted(arranged)
    ensures r.(items := arranged) == Canonical(r)
  {
    PermutedIsDistinct(r.items, arranged);
    CanonicalFormIsDetermined(arranged, Sort(r.items));
  }

  // ---------- repository/orders.go: CreateOrder ----------

  function Wanted(items: seq<RequestItem>): set<Id> {
    set i | 0 <= i < |items| :: items[i].menuItem
  }

  /** The rows of the item query: the selectable rows among the wanted ids, as id to external id. */
  ghost function Found(t: Catalog.Tables, wanted: set<Id>): map<Id, Id>
    requires Catalog.UniqueIds(t)
  {
    map e | e in t.items && t.items[e].id in wanted && t.items[e].active && t.items[e].available :: t.items[e].id := e
  }

  ghost predicate FoundAll(t: Catalog.Tables, items: seq<RequestItem>)
    requires Catalog.UniqueIds(t)
  {
    forall i :: 0 <= i < |items| ==> items[i].menuItem in Found(t, Wanted(items))
  }

  /** The order line for one requested item; prices are the menu's at this moment. */
  function LineItem(t: Catalog.Tables, external: Id, item: RequestItem): OrderItem
    requires external in t.items
  {
    var row := t.items[external];
    OrderItem(item.menuItem, external, row.name, item.quantity, row.price, row.price * item.quantity)
  }

  ghost function Priced(t: Catalog.Tables, items: seq<RequestItem>): (lines: seq<OrderItem>)
    requires Catalog.UniqueIds(t) && FoundAll(t, items)
    ensures |lines| == |items|
  {
    seq(|items|, i requires 0 <= i < |items| => LineItem(t, Found(t, Wanted(items))[items[i].menuItem], items[i]))
  }

  /** The lines of the command that the platform sends to the venue. */
  function CommandLines(items: seq<OrderItem>): (lines: seq<Line>)
    ensures |lines| == |items|
  {
    seq(|items|, i requires 0 <= i < |items| => Line(items[i].external, items[i].quantity, items[i].price))
  }

  ghost function Price(front: Storefront, r: Request): Tx<Basket, Error>
    requires ValidRequest(r) && Catalog.UniqueIds(front.tables)
  {
    var found := Found(front.tables, Wanted(r.items));
    if r.venue != front.id then Rollback(VenueNotFound)
    else if !front.accepting then Rollback(Error.VenueClosed)
    else if front.tables.version != Some(r.menuVersion) then Rollback(Error.MenuChanged)
    else if exists id :: id in found && front.tables.items[found[id]].currency != front.currency then
      Rollback(Error.MenuChanged)
    else if |found| != |r.items| then Rollback(Error.ItemsUnavailable)
    else
      EveryItemFound(front.tables, r.items);
      var items := Priced(front.tables, r.items);
      var amount := Total(CommandLines(items));
      if amount > MAX_INT64 then Rollback(AmountOverflow)
      else if amount < front.minimum then Rollback(MinimumOrder)
      else Commit(Basket(items, amount))
  }

  lemma {:induction false} WantedCount(items: seq<RequestItem>)
    requires Distinct(items)
    ensures |Wanted(items)| == |items|
  {
    if items != [] {
      var front, last := items[..|items| - 1], items[|items| - 1];
      WantedCount(front);
      assert Wanted(items) == Wanted(front) + {last.menuItem};
    }
  }

  lemma SubsetOfSameSize(a: set<Id>, b: set<Id>)
    requires a <= b && |a| == |b|
    ensures a == b
  {
    if a != b {
      var x :| x in b && x !in a;
      assert |b - {x}| == |b| - 1;
      SubsetSize(a, b - {x});
    }
  }

  lemma {:induction false} SubsetSize(a: set<Id>, b: set<Id>)
    requires a <= b
    ensures |a| <= |b|
  {
    if a != {} {
      var x :| x in a;
      SubsetSize(a - {x}, b - {x});
    }
  }

  /** Comparing the two lengths is enough: as many rows as requested ids means every id has its row. */
  lemma EveryItemFound(t: Catalog.Tables, items: seq<RequestItem>)
    requires Catalog.UniqueIds(t) && Distinct(items)
    requires |Found(t, Wanted(items))| == |items|
    ensures FoundAll(t, items)
  {
    WantedCount(items);
    var found := Found(t, Wanted(items));
    assert found.Keys <= Wanted(items);
    assert |found.Keys| == |found|;
    SubsetOfSameSize(found.Keys, Wanted(items));
  }

  // ---------- what a price means, in menu columns ----------

  /** The requested item has this row, and the row may be ordered. */
  predicate Selects(t: Catalog.Tables, item: RequestItem, external: Id) {
    && external in t.items && t.items[external].id == item.menuItem
    && t.items[external].active && t.items[external].available
  }

  ghost predicate Orderable(t: Catalog.Tables, item: RequestItem) {
    exists e :: Selects(t, item, e)
  }

  /** One line per requested item, in request order, at the price of its row. */
  ghost predicate Charges(t: Catalog.Tables, items: seq<RequestItem>, lines: seq<OrderItem>) {
    && |lines| == |items|
    && forall i :: 0 <= i < |lines| ==>
         && Selects(t, items[i], lines[i].external)
         && lines[i].menuItem == items[i].menuItem && lines[i].quantity == items[i].quantity
         && lines[i].name == t.items[lines[i].external].name
         && lines[i].price == t.items[lines[i].external].price
         && lines[i].total == lines[i].price * lines[i].quantity
  }

  function SumOf(lines: seq<OrderItem>): int {
    if lines == [] then 0 else SumOf(lines[..|lines| - 1]) + lines[|lines| - 1].total
  }

  lemma {:induction false} SumIsTotal(lines: seq<OrderItem>)
    requires forall i :: 0 <= i < |lines| ==> lines[i].total == lines[i].price * lines[i].quantity
    ensures SumOf(lines) == Total(CommandLines(lines))
  {
    if lines != [] {
      var front, n := lines[..|lines| - 1], |lines| - 1;
      SumIsTotal(front);
      assert CommandLines(lines)[..n] == CommandLines(front);
    }
  }

  lemma FoundIsSelected(t: Catalog.Tables, items: seq<RequestItem>, i: nat)
    requires Catalog.UniqueIds(t) && i < |items|
    ensures var found, id := Found(t, Wanted(items)), items[i].menuItem;
      && (id in found <==> Orderable(t, items[i]))
      && (id in found ==> Selects(t, items[i], found[id]))
      && (forall e :: Selects(t, items[i], e) ==> id in found && found[id] == e)
  {
    var found, id := Found(t, Wanted(items)), items[i].menuItem;
    assert id in Wanted(items);
    forall e | Selects(t, items[i], e) ensures id in found && found[id] == e {
    }
    assert id in found ==> Selects(t, items[i], found[id]);
  }

  lemma PricedCharges(t: Catalog.Tables, items: seq<RequestItem>, lines: seq<OrderItem>)
    requires Catalog.UniqueIds(t) && FoundAll(t, items)
    ensures Charges(t, items, lines) <==> lines == Priced(t, items)
  {
    hide Found, Wanted, Catalog.UniqueIds;
    forall i | 0 <= i < |items|
      ensures forall e :: Selects(t, items[i], e) <==> e == Found(t, Wanted(items))[items[i].menuItem]
    {
      FoundIsSelected(t, items, i);
    }
    if Charges(t, items, lines) {
      forall i | 0 <= i < |items| ensures lines[i] == Priced(t, items)[i] {
        assert Selects(t, items[i], lines[i].external);
      }
    }
  }

  predicate ForeignRow(front: Storefront, external: Id) {
    external in front.tables.items && front.tables.items[external].currency != front.currency
  }

  /** A wanted row that may be ordered has another currency than the venue. */
  ghost predicate Foreign(front: Storefront, items: seq<RequestItem>) {
    exists i, e :: 0 <= i < |items| && Selects(front.tables, items[i], e) && ForeignRow(front, e)
  }

  /** The checks of a new checkout, in their order: each error exactly when its check is the first to fail, and
      otherwise lines, totals and amount at the menu's prices. */
  lemma PriceRules(front: Storefront, r: Request, lines: seq<OrderItem>)
    requires ValidRequest(r) && Catalog.UniqueIds(front.tables)
    ensures var price := Price(front, r);
      if r.venue != front.id then price == Rollback(VenueNotFound)
      else if !front.accepting then price == Rollback(Error.VenueClosed)
      else if front.tables.version != Some(r.menuVersion) || Foreign(front, r.items) then
        price == Rollback(Error.MenuChanged)
      else
        && (price == Rollback(Error.ItemsUnavailable) <==>
              exists i :: 0 <= i < |r.items| && !Orderable(front.tables, r.items[i]))
        && (Charges(front.tables, r.items, lines) ==>
              price == if SumOf(lines) > MAX_INT64 then Rollback(AmountOverflow)
                       else if SumOf(lines) < front.minimum then Rollback(MinimumOrder)
                       else Commit(Basket(lines, SumOf(lines))))
        && (price.Commit? ==>
              Charges(front.tables, r.items, price.state.items) && price.state.amount == SumOf(price.state.items))
  {
    hide Total, Priced, Charges, Orderable, Foreign, Found, Wanted, Catalog.UniqueIds;
    ForeignIsFound(front, r.items);
    LengthsCompare(front.tables, r.items);
    if |Found(front.tables, Wanted(r.items))| == |r.items| {
      EveryItemFound(front.tables, r.items);
      var priced := Priced(front.tables, r.items);
      PricedCharges(front.tables, r.items, lines);
      PricedCharges(front.tables, r.items, priced);
      ChargedSum(front.tables, r.items, priced);
    } else if Charges(front.tables, r.items, lines) {
      ChargesSelect(front.tables, r.items, lines);
    }
  }

  lemma PriceIsCharged(front: Storefront, r: Request)
    requires ValidRequest(r) && Catalog.UniqueIds(front.tables) && Price(front, r).Commit?
    ensures var basket := Price(front, r).state;
      Charges(front.tables, r.items, basket.items) && basket.amount == SumOf(basket.items)
  {
    PriceRules(front, r, []);
    hide Price, Charges, SumOf;
  }

  lemma ChargesSelect(t: Catalog.Tables, items: seq<RequestItem>, lines: seq<OrderItem>)
    requires Charges(t, items, lines)
    ensures forall i :: 0 <= i < |items| ==> Orderable(t, items[i])
  {
    forall i | 0 <= i < |items| ensures Orderable(t, items[i]) {
      assert Selects(t, items[i], lines[i].external);
    }
  }

  lemma ChargedSum(t: Catalog.Tables, items: seq<RequestItem>, lines: seq<OrderItem>)
    requires Charges(t, items, lines)
    ensures SumOf(lines) == Total(CommandLines(lines))
  {
    SumIsTotal(lines);
  }

  lemma ForeignIsFound(front: Storefront, items: seq<RequestItem>)
    requires Catalog.UniqueIds(front.tables)
    ensures var found := Found(front.tables, Wanted(items));
      Foreign(front, items) <==> exists id :: id in found && front.tables.items[found[id]].currency != front.currency
  {
    var found := Found(front.tables, Wanted(items));
    if i, e :| 0 <= i < |items| && Selects(front.tables, items[i], e) && ForeignRow(front, e) {
      FoundIsSelected(front.tables, items, i);
      assert items[i].menuItem in found && found[items[i].menuItem] == e;
    }
    if id :| id in found && front.tables.items[found[id]].currency != front.currency {
      var i :| 0 <= i < |items| && items[i].menuItem == id;
      assert Selects(front.tables, items[i], found[id]) && ForeignRow(front, found[id]);
    }
  }

  /** As many rows as requested items means that every item has one. */
  lemma LengthsCompare(t: Catalog.Tables, items: seq<RequestItem>)
    requires Catalog.UniqueIds(t) && Distinct(items)
    ensures |Found(t, Wanted(items))| != |items| <==>
      exists i :: 0 <= i < |items| && !Orderable(t, items[i])
  {
    hide Catalog.UniqueIds, Distinct;
    var found := Found(t, Wanted(items));
    forall i | 0 <= i < |items| ensures items[i].menuItem in found <==> Orderable(t, items[i]) {
      FoundIsSelected(t, items, i);
    }
    if |found| == |items| {
      EveryItemFound(t, items);
    } else if forall i :: 0 <= i < |items| ==> items[i].menuItem in found {
      AllFound(t, items);
    }
    hide Found, Wanted, Orderable;
  }

  lemma AllFound(t: Catalog.Tables, items: seq<RequestItem>)
    requires Catalog.UniqueIds(t) && Distinct(items) && FoundAll(t, items)
    ensures |Found(t, Wanted(items))| == |items|
  {
    hide Catalog.UniqueIds, Distinct, Found;
    WantedCount(items);
    FoundIsWanted(t, items);
    var found := Found(t, Wanted(items));
    assert Wanted(items) == found.Keys;
    assert |found.Keys| == |found|;
  }

  lemma FoundIsWanted(t: Catalog.Tables, items: seq<RequestItem>)
    requires Catalog.UniqueIds(t)
    ensures Found(t, Wanted(items)).Keys <= Wanted(items)
  {
  }

  // ---------- repository/orders.go: findIdempotentOrder ----------

  /** The columns of `orders` and the rows of `order_items` that checkout writes once. */
  datatype Purchase = Purchase(customer: string, key: string, canonical: Request, basket: Basket)

  ghost predicate Bought(purchases: map<Id, Purchase>, order: Id, customer: string, key: string) {
    order in purchases && purchases[order].customer == customer && purchases[order].key == key
  }

  ghost function FindOrder(purchases: map<Id, Purchase>, customer: string, key: string): (found: Option<Id>)
    ensures found.Some? ==> Bought(purchases, found.value, customer, key)
    ensures found.None? ==> forall o :: !Bought(purchases, o, customer, key)
  {
    if exists o :: Bought(purchases, o, customer, key) then
      var o :| Bought(purchases, o, customer, key);
      Some(o)
    else None
  }

  ghost predicate OneOrderPerKey(purchases: map<Id, Purchase>) {
    forall o, x, customer, key :: Bought(purchases, o, customer, key) && Bought(purchases, x, customer, key) ==> o == x
  }

  /** What the customer gets back: the order and its lines. */
  ghost function Place(purchases: map<Id, Purchase>, front: Storefront, order: Id, key: string, request: Request)
    : Tx<(Id, Basket), Error>
    requires Catalog.UniqueIds(front.tables)
  {
    if !ValidRequest(request) then Rollback(Invalid)
    else
      var existing := FindOrder(purchases, request.customer, key);
      if existing.Some? then
        (if purchases[existing.value].canonical == Canonical(request)
         then Commit((existing.value, purchases[existing.value].basket))
         else Rollback(KeyReused))
      else match Price(front, request) {
        case Commit(basket) => Commit((order, basket))
        case Rollback(e) => Rollback(e)
      }
  }

  lemma AddPurchase(purchases: map<Id, Purchase>, order: Id, b: Purchase)
    requires OneOrderPerKey(purchases) && order !in purchases
    requires forall o :: !Bought(purchases, o, b.customer, b.key)
    ensures OneOrderPerKey(purchases[order := b])
  {
    var after := purchases[order := b];
    forall o, x, customer, key | Bought(after, o, customer, key) && Bought(after, x, customer, key) ensures o == x {
      assert o != order ==> Bought(purchases, o, customer, key);
      assert x != order ==> Bought(purchases, x, customer, key);
    }
  }

  // ---------- what a placed order looks like to the venue ----------

  function CommandOf(order: Id, request: Request, basket: Basket): OrderCommand {
    OrderCommand(order, request.menuVersion, CommandLines(basket.items))
  }

  lemma ActivePriceIsValid(t: Catalog.Tables, e: Id)
    requires Catalog.Inv(t) && e in t.items && t.items[e].active
    ensures t.items[e].price >= 0
  {
  }

  lemma {:induction false} TotalBounds(lines: seq<Line>, i: nat)
    requires forall k :: 0 <= k < |lines| ==> lines[k].price >= 0 && lines[k].quantity >= 0
    requires i < |lines|
    ensures 0 <= lines[i].price * lines[i].quantity <= Total(lines)
  {
    var front, last := lines[..|lines| - 1], lines[|lines| - 1];
    Monotone(last.price, 0, last.quantity);
    Monotone(lines[i].price, 0, lines[i].quantity);
    if i < |front| {
      TotalBounds(front, i);
    } else if |front| > 0 {
      TotalBounds(front, 0);
    }
  }

  /** Lines of distinct menu items name distinct external items. */
  lemma ExternalsAreUnique(front: Storefront, r: Request)
    requires ValidRequest(r) && Catalog.Inv(front.tables) && Price(front, r).Commit?
    ensures UniqueItems(CommandLines(Price(front, r).state.items))
  {
    EveryItemFound(front.tables, r.items);
  }

  lemma PricedLines(front: Storefront, r: Request)
    requires ValidRequest(r) && Catalog.Inv(front.tables) && Price(front, r).Commit?
    ensures var basket := Price(front, r).state;
      var lines := CommandLines(basket.items);
      && |lines| == |r.items| && Total(lines) == basket.amount <= MAX_INT64
      && (forall i :: 0 <= i < |lines| ==>
            lines[i].quantity == r.items[i].quantity >= 1 && lines[i].price >= 0)
  {
    EveryItemFound(front.tables, r.items);
    PricesNotNegative(front.tables, r.items);
    hide Catalog.Inv, Total, Catalog.UniqueIds, Found, Wanted;
  }

  lemma PricesNotNegative(t: Catalog.Tables, items: seq<RequestItem>)
    requires Catalog.Inv(t) && FoundAll(t, items)
    ensures forall i :: 0 <= i < |items| ==>
      Priced(t, items)[i].price >= 0 && Priced(t, items)[i].quantity == items[i].quantity
  {
    forall i | 0 <= i < |items| ensures Priced(t, items)[i].price >= 0 {
      ActivePriceIsValid(t, Priced(t, items)[i].external);
    }
  }

  /** The command of a placed order: the venue's validation lets it through and its total is the amount. */
  lemma PlacedCommandIsValid(front: Storefront, r: Request, order: Id)
    requires ValidRequest(r) && Catalog.Inv(front.tables) && Price(front, r).Commit?
    ensures var basket := Price(front, r).state;
      var lines := CommandLines(basket.items);
      && |lines| == |r.items|
      && UniqueItems(lines)
      && Total(lines) == basket.amount <= MAX_INT64
      && (forall i :: 0 <= i < |lines| ==>
            && lines[i].quantity == r.items[i].quantity
            && lines[i].price >= 0
            && lines[i].price * lines[i].quantity <= MAX_INT64)
  {
    var basket := Price(front, r).state;
    var lines := CommandLines(basket.items);
    ExternalsAreUnique(front, r);
    PricedLines(front, r);
    hide Catalog.Inv, UniqueItems, Total, ValidRequest, Price;
    forall i | 0 <= i < |lines| ensures lines[i].price * lines[i].quantity <= MAX_INT64 {
      TotalBounds(lines, i);
    }
  }
}
