/** The platform's repository over its tables. A method that returns an error has written nothing. */
module PlatformStore {
  import opened Types
  import opened Amounts
  import P = Platform
  import C = Catalog
  import K = Checkout
  import PlatformRules

  // ---------- the pricing loop of CreateOrder ----------

  /** The rows that the item query returned, each once, in any order. */
  ghost predicate IsItemAnswer(front: K.Storefront, request: K.Request, rows: seq<Id>) {
    && (forall i, j :: 0 <= i < j < |rows| ==> rows[i] != rows[j])
    && (forall e :: e in rows <==>
          && e in front.tables.items && front.tables.items[e].id in K.Wanted(request.items)
          && front.tables.items[e].active && front.tables.items[e].available)
  }

  lemma RowsAreFound(front: K.Storefront, request: K.Request, rows: seq<Id>)
    requires C.UniqueIds(front.tables) && IsItemAnswer(front, request, rows)
    ensures var found := K.Found(front.tables, K.Wanted(request.items));
      && (forall e :: e in rows ==>
            e in front.tables.items && front.tables.items[e].id in found && found[front.tables.items[e].id] == e)
      && (forall id :: id in found ==> found[id] in rows && front.tables.items[found[id]].id == id)
  {
  }

  /** The scan of the query's rows: None as soon as a row has another currency than the venue. */
  method LoadMenuItems(front: K.Storefront, request: K.Request, rows: seq<Id>) returns (menuItems: Option<map<Id, Id>>)
    requires C.UniqueIds(front.tables) && IsItemAnswer(front, request, rows)
    ensures var found := K.Found(front.tables, K.Wanted(request.items));
      && (menuItems.None? ==> exists id :: id in found && front.tables.items[found[id]].currency != front.currency)
      && (menuItems.Some? ==> menuItems.value == found)
      && (menuItems.Some? ==> forall id :: id in found ==> front.tables.items[found[id]].currency == front.currency)
  {
    ghost var found := K.Found(front.tables, K.Wanted(request.items));
    RowsAreFound(front, request, rows);
    hide K.Found, K.Wanted, IsItemAnswer, C.UniqueIds;
    var byId: map<Id, Id> := map[];
    for index := 0 to |rows|
      invariant forall i :: 0 <= i < index ==>
        front.tables.items[rows[i]].id in byId && front.tables.items[rows[i]].currency == front.currency
      invariant forall id :: id in byId ==> id in found && byId[id] == found[id]
    {
      var row := front.tables.items[rows[index]];
      assert rows[index] in rows;
      if row.currency != front.currency {
        return None;
      }
      byId := byId[row.id := rows[index]];
    }
    forall id | id in found ensures id in byId && front.tables.items[found[id]].currency == front.currency {
      var i :| 0 <= i < |rows| && rows[i] == found[id];
    }
    menuItems := Some(byId);
  }

  method Quantities(items: seq<K.RequestItem>) returns (quantities: map<Id, int>)
    requires K.Distinct(items)
    ensures forall j :: 0 <= j < |items| ==>
      items[j].menuItem in quantities && quantities[items[j].menuItem] == items[j].quantity
  {
    quantities := map[];
    for index := 0 to |items|
      invariant forall j :: 0 <= j < index ==>
        items[j].menuItem in quantities && quantities[items[j].menuItem] == items[j].quantity
    {
      quantities := quantities[items[index].menuItem := items[index].quantity];
    }
  }

  lemma NothingCosts()
    ensures Total(K.CommandLines([])) == 0
  {
  }

  /** The order's lines in request order and their total; None exactly when the total leaves int64. */
  method BuildItems(front: K.Storefront, request: K.Request, menuItems: map<Id, Id>) returns (basket: Option<K.Basket>)
    requires K.Distinct(request.items) && C.UniqueIds(front.tables) && K.FoundAll(front.tables, request.items)
    requires forall item :: item in K.Priced(front.tables, request.items) ==> item.price >= 0 && item.quantity >= 0
    requires menuItems == K.Found(front.tables, K.Wanted(request.items))
    ensures var items := K.Priced(front.tables, request.items);
      basket == if Total(K.CommandLines(items)) > MAX_INT64 then None
                else Some(K.Basket(items, Total(K.CommandLines(items))))
  {
    hide C.UniqueIds, Total;
    var quantities := Quantities(request.items);
    ghost var all := K.Priced(front.tables, request.items);
    NothingCosts();
    var items: seq<K.OrderItem> := [];
    var amount := 0;
    for index := 0 to |request.items|
      invariant items == all[..index]
      invariant amount == Total(K.CommandLines(items)) && 0 <= amount <= MAX_INT64
    {
      var requested := request.items[index];
      var item := K.LineItem(front.tables, menuItems[requested.menuItem],
                             requested.(quantity := quantities[requested.menuItem]));
      assert item == all[index];
      var sum := AddLine(amount, item.price, item.quantity);
      NextLine(items, item);
      assert all[..index + 1] == items + [item];
      if sum.None? {
        PrefixCostsLess(all, index + 1);
        return None;
      }
      amount := sum.value;
      items := items + [item];
    }
    assert items == all;
    basket := Some(K.Basket(items, amount));
  }

  method PriceBasket(front: K.Storefront, request: K.Request, rows: seq<Id>) returns (result: Tx<K.Basket, K.Error>)
    requires K.ValidRequest(request) && C.Inv(front.tables) && IsItemAnswer(front, request, rows)
    ensures result == K.Price(front, request)
    ensures result.Commit? ==>
      K.Charges(front.tables, request.items, result.state.items) && result.state.amount == K.SumOf(result.state.items)
  {
    hide K.Charges, K.SumOf;
    if K.Price(front, request).Commit? {
      K.PriceIsCharged(front, request);
    }
    if request.venue != front.id {
      return Rollback(K.VenueNotFound);
    }
    if !front.accepting {
      return Rollback(K.Error.VenueClosed);
    }
    if front.tables.version.None? || front.tables.version.value != request.menuVersion {
      return Rollback(K.Error.MenuChanged);
    }
    var menuItems := LoadMenuItems(front, request, rows);
    if menuItems.None? {
      return Rollback(K.Error.MenuChanged);
    }
    if |menuItems.value| != |request.items| {
      return Rollback(K.Error.ItemsUnavailable);
    }
    K.EveryItemFound(front.tables, request.items);
    PricesNotNegative(front, request);
    var basket := BuildItems(front, request, menuItems.value);
    if basket.None? {
      return Rollback(K.AmountOverflow);
    }
    if basket.value.amount < front.minimum {
      return Rollback(K.MinimumOrder);
    }
    result := Commit(basket.value);
  }

  lemma PricesNotNegative(front: K.Storefront, request: K.Request)
    requires K.ValidRequest(request) && C.Inv(front.tables) && K.FoundAll(front.tables, request.items)
    ensures forall item :: item in K.Priced(front.tables, request.items) ==> item.price >= 0 && item.quantity >= 0
  {
  }

  lemma NextLine(items: seq<K.OrderItem>, item: K.OrderItem)
    ensures Total(K.CommandLines(items + [item])) == Total(K.CommandLines(items)) + item.price * item.quantity
  {
    var line := Line(item.external, item.quantity, item.price);
    assert K.CommandLines(items + [item]) == K.CommandLines(items) + [line];
    TotalOfAppended(K.CommandLines(items), line);
  }

  lemma {:induction false} PrefixCostsLess(items: seq<K.OrderItem>, i: nat)
    requires i <= |items|
    requires forall item :: item in items ==> item.price >= 0 && item.quantity >= 0
    ensures Total(K.CommandLines(items[..i])) <= Total(K.CommandLines(items))
    decreases |items|
  {
    if i < |items| {
      var front, last := items[..|items| - 1], items[|items| - 1];
      assert items == front + [last];
      PrefixCostsLess(front, i);
      assert front[..i] == items[..i];
      NextLine(front, last);
      Monotone(last.price, 0, last.quantity);
    } else {
      assert items[..i] == items;
    }
  }

  // ---------- the repository ----------

  /** The rows of all orders, from the four tables. */
  function Join(orders: map<Id, P.OrderRow>, outbox: map<Id, seq<P.OutboxRow>>,
                history: map<Id, seq<P.HistoryRow>>, events: map<Id, seq<OrderEvent>>): map<Id, P.Order>
    requires orders.Keys == outbox.Keys == history.Keys == events.Keys
  {
    map o | o in orders :: P.Order(orders[o], outbox[o], history[o], events[o])
  }

  lemma JoinUpdated(orders: map<Id, P.OrderRow>, outbox: map<Id, seq<P.OutboxRow>>,
                    history: map<Id, seq<P.HistoryRow>>, events: map<Id, seq<OrderEvent>>, o: Id, p: P.Order)
    requires orders.Keys == outbox.Keys == history.Keys == events.Keys
    ensures orders[o := p.row].Keys == outbox[o := p.jobs].Keys == history[o := p.history].Keys ==
         events[o := p.received].Keys
    ensures o in orders ==> orders[o := p.row].Keys == orders.Keys
    ensures Join(orders[o := p.row], outbox[o := p.jobs], history[o := p.history], events[o := p.received]) ==
      Join(orders, outbox, history, events)[o := p]
  {
  }

  class Repository {
    var front: K.Storefront
    var purchases: map<Id, K.Purchase>
    var orders: map<Id, P.OrderRow>
    var outbox: map<Id, seq<P.OutboxRow>>
    var history: map<Id, seq<P.HistoryRow>>
    var events: map<Id, seq<OrderEvent>>

    ghost predicate Valid()
      reads this
    {
      && orders.Keys == purchases.Keys == outbox.Keys == history.Keys == events.Keys
      && K.OneOrderPerKey(purchases)
      && C.Inv(front.tables)
    }

    /** The rows of one order from the four tables. */
    function Load(o: Id): P.Order
      requires o in orders && o in outbox && o in history && o in events
      reads this
    {
      P.Order(orders[o], outbox[o], history[o], events[o])
    }

    function Orders(): map<Id, P.Order>
      requires orders.Keys == outbox.Keys == history.Keys == events.Keys
      reads this
    {
      Join(orders, outbox, history, events)
    }

    constructor (front: K.Storefront)
      requires C.Inv(front.tables)
      ensures Valid() && Orders() == map[] && purchases == map[] && this.front == front
    {
      this.front := front;
      purchases, orders, outbox, history, events := map[], map[], map[], map[], map[];
    }

    /** The INSERTs into `orders`, `order_items`, `order_status_history` and `outbox`. */
    method InsertOrder(order: Id, b: K.Purchase, command: OrderCommand, deadline: int, now: int)
      requires Valid() && order !in orders && forall o :: !K.Bought(purchases, o, b.customer, b.key)
      modifies `purchases, `orders, `outbox, `history, `events
      ensures Valid() && purchases == old(purchases)[order := b]
      ensures Orders() == old(Orders())[order :=
        P.Create(front.id, command, b.basket.amount, front.currency, deadline, now)]
    {
      hide C.Inv, K.Bought, K.OneOrderPerKey, Join;
      K.AddPurchase(purchases, order, b);
      purchases := purchases[order := b];
      var row := P.OrderRow(front.id, b.basket.amount, front.currency, deadline,
                            Pending, P.NotRequested, 0, None, None);
      var job := P.NewJob(P.ConfirmOrder(command), now);
      WriteRows(order, P.Order(row, [job], [P.HistoryRow(Pending, P.ByCustomer)], []));
    }

    /** Inserts or updates the rows of one order in its four tables. */
    method WriteRows(o: Id, p: P.Order)
      requires orders.Keys == outbox.Keys == history.Keys == events.Keys
      modifies `orders, `outbox, `history, `events
      ensures orders.Keys == outbox.Keys == history.Keys == events.Keys == old(orders.Keys) + {o}
      ensures Orders() == old(Orders())[o := p]
    {
      JoinUpdated(orders, outbox, history, events, o, p);
      hide Join;
      orders := orders[o := p.row];
      outbox := outbox[o := p.jobs];
      history := history[o := p.history];
      events := events[o := p.received];
    }

    method CreateOrder(order: Id, key: string, request: K.Request, deadline: int, now: int, rows: seq<Id>)
      returns (reply: Tx<(Id, K.Basket), K.Error>)
      requires Valid() && order !in orders && K.ValidRequest(request) && IsItemAnswer(front, request, rows)
      modifies this
      ensures Valid() && front == old(front)
      ensures reply == K.Place(old(purchases), front, order, key, request)
      ensures if reply.Commit? && K.FindOrder(old(purchases), request.customer, key).None? then
          && purchases == old(purchases)[order :=
               K.Purchase(request.customer, key, K.Canonical(request), reply.state.1)]
          && Orders() == old(Orders())[order := P.Create(front.id, K.CommandOf(order, request, reply.state.1),
               reply.state.1.amount, front.currency, deadline, now)]
        else purchases == old(purchases) && Orders() == old(Orders())
      ensures reply.Commit? && K.FindOrder(old(purchases), request.customer, key).None? ==>
        var (id, basket) := reply.state;
        && id == order && K.Charges(front.tables, request.items, basket.items)
        && basket.amount == K.SumOf(basket.items) && order in Orders()
        && PlatformRules.Placed(Orders()[order], front.id, order, request.menuVersion, basket, front.currency,
                                deadline, now)
    {
      hide C.Inv, K.Price, K.ValidRequest, IsItemAnswer, K.Canonical, K.Charges, K.SumOf, PlatformRules.Placed, Join;
      hide P.Create, K.CommandOf;
      ghost var found := K.FindOrder(purchases, request.customer, key);
      if o :| o in purchases && purchases[o].customer == request.customer && purchases[o].key == key {
        assert K.Bought(purchases, o, request.customer, key);
        if purchases[o].canonical != K.Canonical(request) {
          return Rollback(K.KeyReused);
        }
        return Commit((o, purchases[o].basket));
      }
      assert forall o :: !K.Bought(purchases, o, request.customer, key);
      var basket := PriceBasket(front, request, rows);
      if basket.Rollback? {
        return Rollback(basket.error);
      }
      var b := K.Purchase(request.customer, key, K.Canonical(request), basket.state);
      InsertOrder(order, b, K.CommandOf(order, request, basket.state), deadline, now);
      PlatformRules.CreateRules(front.id, order, request, basket.state, front.currency, deadline, now);
      reply := Commit((order, basket.state));
    }

    /** COMMIT: the rows that a transaction worked on become the tables' rows. Until then it works on its own
        copy, so that returning an error rolls everything back. */
    method Save(o: Id, tx: P.Order)
      requires Valid() && o in orders
      modifies `orders, `outbox, `history, `events
      ensures Valid() && Orders() == old(Orders())[o := tx]
    {
      hide C.Inv, K.OneOrderPerKey, Join;
      WriteRows(o, tx);
    }

    method CancelOrder(o: Id, now: int) returns (reply: Tx<P.Order, P.Error>)
      requires Valid()
      modifies `orders, `outbox, `history, `events
      ensures Valid()
      ensures old(o !in orders) ==> reply == Rollback(P.NotFound) && Orders() == old(Orders())
      ensures old(o in orders) ==>
        && reply == P.CustomerCancel(old(Load(o)), now)
        && Orders() == old(Orders())[o := P.Committed(old(Load(o)), reply)]
    {
      hide C.Inv, K.OneOrderPerKey;
      if o !in orders {
        return Rollback(P.NotFound);
      }
      var tx := Load(o);
      var status, cancellation := tx.row.status, tx.row.cancellation;
      if status == Cancelled && cancellation == P.Confirmed {
        // exact repeat
      } else if cancellation == P.Requested || cancellation == P.Refused {
        // the existing request or result
      } else if status == Pending {
        var k := P.OpenConfirmation(tx.jobs);
        if k.None? || tx.jobs[k.value].attempts != 0 || tx.jobs[k.value].token.Some? {
          return Rollback(P.NotAllowed);
        }
        tx := tx.(jobs := P.CloseConfirmations(tx.jobs, now));
        tx := tx.(row := tx.row.(status := Cancelled, cancellation := P.Confirmed));
        tx := tx.(history := tx.history + [P.HistoryRow(Cancelled, P.ByCustomer)]);
      } else if status == Accepted && (cancellation == P.NotRequested || cancellation == P.Failed) {
        tx := tx.(row := tx.row.(cancellation := P.Requested));
        tx := tx.(jobs := tx.jobs + [P.NewJob(P.CancelOrder, now)]);
      } else {
        return Rollback(P.NotAllowed);
      }
      Save(o, tx);
      reply := Commit(tx);
    }

    /** The query locks one of its candidates; rows that other workers hold locked are skipped, so any
        candidate may be the one. */
    method ClaimOutbox(token: Id, now: int, lease: int) returns (job: Option<(Id, P.Claim)>)
      requires Valid()
      modifies `outbox
      ensures Valid()
      ensures job.None? ==>
        Orders() == old(Orders()) && forall o, k: nat :: o in old(orders) ==> !P.Claimable(old(Load(o)), k, now)
      ensures job.None? ==> forall o, k: nat :: o in old(orders) && k < |old(outbox)[o]| ==>
        !PlatformRules.Due(old(outbox)[o][k], old(orders)[o], now)
      ensures job.Some? ==>
        var (o, claim) := job.value;
        && o in old(orders) && claim.job < |old(outbox)[o]|
        && var row, order := old(outbox)[o][claim.job], old(orders)[o];
           && PlatformRules.Due(row, order, now)
           && outbox == old(outbox)[o := old(outbox)[o][claim.job := P.OutboxRow(
                row.kind, row.attempts + 1, row.availableAt, Some(now + lease), Some(token), None, row.lastError)]]
           && claim == P.Claim(claim.job, row.kind, token, row.attempts + 1, now + lease,
                               order.deadline, order.amount, order.currency)
      ensures job.Some? ==>
        && job.value.0 in old(orders) && P.Claimable(old(Load(job.value.0)), job.value.1.job, now)
        && job.value.1 == P.ClaimOf(old(Load(job.value.0)), job.value.1.job, token, now, lease)
        && Orders() == old(Orders())[job.value.0 :=
             P.ClaimJob(old(Load(job.value.0)), job.value.1.job, token, now, lease)]
        && job.value.1.job < |outbox[job.value.0]| && job.value.1.kind == outbox[job.value.0][job.value.1.job].kind
    {
      hide C.Inv, K.OneOrderPerKey;
      if o, k :| o in orders && 0 <= k < |outbox[o]| && P.Claimable(Load(o), k, now) {
        var row := outbox[o][k];
        row := row.(lockedUntil := Some(now + lease), token := Some(token), attempts := row.attempts + 1);
        outbox := outbox[o := outbox[o][k := row]];
        job := Some((o, P.Claim(k, row.kind, token, row.attempts, row.lockedUntil.value,
                                orders[o].deadline, orders[o].amount, orders[o].currency)));
      } else {
        job := None;
        forall o, k: nat | o in orders && k < |outbox[o]| ensures !PlatformRules.Due(outbox[o][k], orders[o], now) {
          assert !P.Claimable(Load(o), k, now);
        }
      }
    }

    method ResolveOutbox(o: Id, k: nat, token: Id, decision: Decision, now: int) returns (reply: Tx<P.Order, P.Error>)
      requires Valid()
      modifies `orders, `outbox, `history, `events
      ensures Valid()
      ensures old(o !in orders) ==> reply == Rollback(P.LeaseLost) && Orders() == old(Orders())
      ensures old(o in orders) ==>
        && reply == P.Resolve(old(Load(o)), k, token, decision, now)
        && Orders() == old(Orders())[o := P.Committed(old(Load(o)), reply)]
    {
      hide C.Inv, K.OneOrderPerKey;
      if o !in orders {
        return Rollback(P.LeaseLost);
      }
      var tx := Load(o);
      if !P.Owns(tx, k, token) {
        return Rollback(P.LeaseLost);
      }
      tx := tx.(jobs := tx.jobs[k := tx.jobs[k].(processedAt := Some(now), lockedUntil := None, token := None)]);
      var status, externalId, reason := Rejected, None, None;
      match decision {
        case Accept(id, _, _) => status, externalId := Accepted, Some(id);
        case Reject(why, _, _) => reason := Some(why);
      }
      if tx.row.status == Pending {
        tx := tx.(row := tx.row.(status := status, externalId := externalId, reason := reason));
        tx := tx.(history := tx.history + [P.HistoryRow(status, P.ByVenue)]);
      }
      Save(o, tx);
      reply := Commit(tx);
    }

    method ResolveCancellation(o: Id, k: nat, token: Id, decision: CancelDecision, now: int)
      returns (reply: Tx<P.Order, P.Error>)
      requires Valid()
      modifies `orders, `outbox, `history, `events
      ensures Valid()
      ensures old(o !in orders) ==> reply == Rollback(P.NotFound) && Orders() == old(Orders())
      ensures old(o in orders) ==>
        && reply == P.ResolveCancellation(old(Load(o)), k, token, decision, now)
        && Orders() == old(Orders())[o := P.Committed(old(Load(o)), reply)]
    {
      hide C.Inv, K.OneOrderPerKey;
      if o !in orders {
        return Rollback(P.NotFound);
      }
      var tx := Load(o);
      var cancellation := tx.row.cancellation;
      if !P.Owns(tx, k, token) {
        return Rollback(P.LeaseLost);
      }
      tx := tx.(jobs := tx.jobs[k := tx.jobs[k].(processedAt := Some(now), lockedUntil := None, token := None)]);
      if cancellation == P.Requested {
        if decision.CancelConfirmed? {
          tx := tx.(row := tx.row.(status := Cancelled, cancellation := P.Confirmed));
          tx := tx.(history := tx.history + [P.HistoryRow(Cancelled, P.ByVenue)]);
        } else {
          tx := tx.(row := tx.row.(cancellation := P.Refused));
        }
      }
      Save(o, tx);
      reply := Commit(tx);
    }

    /** `kind` is the event type that the worker got with its claim. */
    method RetryOutbox(o: Id, k: nat, kind: P.JobKind, token: Id, availableAt: int, terminal: bool, now: int)
      returns (reply: Tx<P.Order, P.Error>)
      requires Valid() && (o in orders && k < |outbox[o]| ==> kind == outbox[o][k].kind)
      modifies `orders, `outbox, `history, `events
      ensures Valid()
      ensures old(o !in orders) ==> reply == Rollback(P.LeaseLost) && Orders() == old(Orders())
      ensures old(o in orders) ==>
        && reply == (if terminal then P.GiveUp(old(Load(o)), k, token, now)
                     else P.Reschedule(old(Load(o)), k, token, availableAt))
        && Orders() == old(Orders())[o := P.Committed(old(Load(o)), reply)]
    {
      hide C.Inv, K.OneOrderPerKey;
      if o !in orders {
        return Rollback(P.LeaseLost);
      }
      var tx := Load(o);
      if !P.Owns(tx, k, token) {
        return Rollback(P.LeaseLost);
      }
      if !terminal {
        tx := tx.(jobs := tx.jobs[k := tx.jobs[k].(availableAt := availableAt, lockedUntil := None, token := None)]);
      } else {
        var lastError := if kind.CancelOrder? then P.CancellationUndelivered else P.ConfirmationTimedOut;
        tx := tx.(jobs := tx.jobs[k := tx.jobs[k].(
          processedAt := Some(now), lastError := Some(lastError), lockedUntil := None, token := None)]);
        if kind.CancelOrder? {
          if tx.row.cancellation == P.Requested {
            tx := tx.(row := tx.row.(cancellation := P.Failed));
          }
        } else if tx.row.status == Pending {
          tx := tx.(row := tx.row.(status := Expired));
          tx := tx.(history := tx.history + [P.HistoryRow(Expired, P.ByPlatform)]);
        }
      }
      Save(o, tx);
      reply := Commit(tx);
    }

    /** `partner_order_events` is looked up by event id over all orders. */
    predicate RecordedElsewhere(o: Id, event: Id)
      requires Valid()
      reads this
    {
      exists x :: x in orders && x != o && P.FindEvent(events[x], event).Some?
    }

    method RecordOrderEvent(venue: Id, o: Id, event: OrderEvent, now: int) returns (reply: Tx<P.Order, P.Error>)
      requires Valid()
      modifies `orders, `outbox, `history, `events
      ensures Valid()
      ensures old(o !in orders) ==> reply == Rollback(P.NotFound) && Orders() == old(Orders())
      ensures old(o in orders) ==>
        && reply == P.RecordEvent(old(Load(o)), venue, event, old(RecordedElsewhere(o, event.id)), now)
        && Orders() == old(Orders())[o := P.Committed(old(Load(o)), reply)]
    {
      hide C.Inv, K.OneOrderPerKey, Join, P.ApplyEvent, P.EventTransition;
      if o !in orders {
        return Rollback(P.NotFound);
      }
      var tx := Load(o);
      LoadsItself(o);
      if tx.row.venue != venue {
        return Rollback(P.VenueMismatch);
      }
      var existing := P.FindEvent(tx.received, event.id);
      if existing.Some? {
        return if existing.value == event then Commit(tx) else Rollback(P.EventConflict);
      }
      if RecordedElsewhere(o, event.id) {
        return Rollback(P.EventConflict);
      }
      if event.sequence != tx.row.sequence + 1 {
        return Rollback(P.SequenceConflict);
      }
      var target := P.EventTransition(tx.row.status, event.kind);
      if target.None? {
        return Rollback(P.InvalidTransition);
      }
      tx := ApplyOrderEvent(tx, event, target.value, now);
      Save(o, tx);
      reply := Commit(tx);
    }

    lemma LoadsItself(o: Id)
      requires Valid() && o in orders
      ensures Orders()[o := Load(o)] == Orders()
    {
    }
  }

  /** The writes of one accepted event: the event row, the order, the cancellation jobs, the history. */
  method ApplyOrderEvent(p: P.Order, event: OrderEvent, target: Status, now: int) returns (tx: P.Order)
    ensures tx == P.ApplyEvent(p, event, target, now)
  {
    tx := p.(received := p.received + [event]);
    tx := tx.(row := tx.row.(status := target, sequence := event.sequence));
    if event.kind == OrderCancelled {
      tx := tx.(row := tx.row.(cancellation := P.Confirmed));
      tx := tx.(jobs := P.CloseCancellations(tx.jobs, now));
    }
    if p.row.status != target {
      tx := tx.(history := tx.history + [P.HistoryRow(target, P.ByVenue)]);
    }
  }
}
