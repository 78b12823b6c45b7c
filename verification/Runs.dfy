/** The guarantees over every run of the whole system, from an empty pair of databases. */
module Runs {
  import opened Types
  import opened Protocol
  import opened Progress
  import opened System
  import P = Platform
  import V = Venue
  import C = Catalog
  import K = Checkout
  import M = MenuStore
  import Money
  import PlatformRules
  import Stock
  import opened Agreement

  /** `t` is reached from `s` by these events; every interleaving of all participants is such a run. */
  ghost predicate Run(s: State, events: seq<Event>, t: State)
    decreases |events|
  {
    if events == [] then s == t
    else C.Inv(s.front.tables) && CanHappen(s, events[0]) && Run(Apply(s, events[0]), events[1..], t)
  }

  /** Orders, their lines and amounts are never lost or rewritten, and each order only moves on. */
  ghost predicate AllLater(s: State, t: State) {
    && (forall o :: o in s.purchases ==> o in t.purchases && t.purchases[o] == s.purchases[o])
    && (forall o :: o in s.cells ==> o in t.cells && Later(s.cells[o], t.cells[o]))
  }

  lemma EventIsLater(s: State, e: Event)
    requires System.Inv(s) && CanHappen(s, e)
    ensures AllLater(s, Apply(s, e))
  {
    hide Protocol.Inv, Money.Priced, Carries, Stock.NotNegative, K.Price, K.ValidRequest, Later, Step, Enabled;
    hide NewCell, K.Canonical, C.Shows, C.ValidSnapshot, C.Replaces;
    forall o | o in s.cells ensures o in Apply(s, e).cells && Later(s.cells[o], Apply(s, e).cells[o]) {
      if e.Act? && e.order == o {
        assert Sound(s.cells[o], o, s.purchases[o]);
        StepIsLater(s.cells[o], WorldOf(s), e.action);
      } else {
        assert Apply(s, e).cells[o] == s.cells[o];
        LaterIsReflexive(s.cells[o]);
      }
    }
  }

  lemma AllLaterIsTransitive(s: State, t: State, u: State)
    requires AllLater(s, t) && AllLater(t, u)
    ensures AllLater(s, u)
  {
    hide Later;
    forall o | o in s.cells ensures o in u.cells && Later(s.cells[o], u.cells[o]) {
      LaterIsTransitive(s.cells[o], t.cells[o], u.cells[o]);
    }
  }

  lemma AllLaterIsReflexive(s: State)
    ensures AllLater(s, s)
  {
  }

  lemma {:induction false} RunKeepsInv(s: State, events: seq<Event>, t: State)
    requires System.Inv(s) && Run(s, events, t)
    ensures System.Inv(t) && AllLater(s, t)
    decreases |events|
  {
    hide System.Inv, AllLater, Apply, CanHappen;
    if events == [] {
      AllLaterIsReflexive(s);
    } else {
      EventKeepsInv(s, events[0]);
      EventIsLater(s, events[0]);
      RunKeepsInv(Apply(s, events[0]), events[1..], t);
      AllLaterIsTransitive(s, Apply(s, events[0]), t);
    }
  }

  lemma InitialIsSound(s: State)
    requires Initial(s)
    ensures System.Inv(s)
  {
  }

  /** Reached from some empty pair of databases. */
  ghost predicate Reachable(s: State) {
    exists start, events :: Initial(start) && Run(start, events, s)
  }

  lemma ReachableIsSound(s: State)
    requires Reachable(s)
    ensures System.Inv(s)
  {
    var start, events :| Initial(start) && Run(start, events, s);
    InitialIsSound(start);
    RunKeepsInv(start, events, s);
  }

  /** In every reachable state, for every order: the platform replays a prefix of the venue's log, deliveries
      are sandwiched, and where nothing is left to deliver the statuses agree unless the confirmation expired. */
  lemma EveryRunAgrees(s: State, events: seq<Event>, t: State, o: Id)
    requires Initial(s) && Run(s, events, t) && o in t.cells
    ensures Protocol.Inv(t.cells[o])
    ensures Quiescent(t.cells[o]) ==> (Agrees(t.cells[o]) <==> t.cells[o].p.row.status != Expired)
    ensures t.cells[o].v.Some? ==>
      && t.cells[o].p.received == V.Log(t.cells[o].v.value)[..t.cells[o].p.row.sequence]
      && DeliveredBetween(t.cells[o].v.value.callbacks, t.cells[o].p.row.sequence)
  {
    InitialIsSound(s);
    RunKeepsInv(s, events, t);
    assert Sound(t.cells[o], o, t.purchases[o]);
    hide Protocol.Inv, Initial, Run, DeliveredBetween, Quiescent, Agrees;
    LaggingReplay(t.cells[o]);
    if t.cells[o].v.Some? {
      DeliverySandwich(t.cells[o]);
    }
    if Quiescent(t.cells[o]) {
      AgreementAtQuiescence(t.cells[o]);
    }
  }

  // ---------- money ----------

  /** In every reachable state the venue answers every confirmation request that was ever sent, with a refusal or
      with an acceptance of exactly the amount that checkout stored. */
  lemma EveryRequestIsAnswered(s: State, o: Id, shop: V.Shop, cl: P.Claim, newId: Id)
    requires Reachable(s) && o in s.cells && cl in s.cells[o].net.sent && cl.kind.ConfirmOrder?
    ensures o in s.purchases
    ensures var reply := V.Serve(shop, s.cells[o].v, cl.kind.command, newId).reply;
      reply.Commit? && (reply.state.Accept? ==> reply.state.amount == s.purchases[o].basket.amount)
  {
    ReachableIsSound(s);
    assert Sound(s.cells[o], o, s.purchases[o]);
    hide Initial, Run, V.Serve;
    Money.RequestsAreAnswered(s.cells[o], World(shop, s.now, s.front.id, s.maxAttempts), cl, newId);
  }

  /** In every reachable state every acceptance on its way back passes the client's amount check. */
  lemma AmountAlwaysMatches(s: State, o: Id, cl: P.Claim, decision: Decision)
    requires Reachable(s) && o in s.cells && (cl, decision) in s.cells[o].net.decisions && decision.Accept?
    ensures o in s.purchases
    ensures decision.amount == cl.amount == s.purchases[o].basket.amount
    ensures ClientAccepts(cl, decision) <==> decision.currency == cl.currency
  {
    ReachableIsSound(s);
    assert Sound(s.cells[o], o, s.purchases[o]);
    hide Initial, Run;
    Money.AmountCheckHolds(s.cells[o], cl, decision);
  }

  /** Once an order shows `cancelled`, in every continuation the venue has no order for it or has it
      cancelled; an order cancelled before the first claim never reaches the venue at all. */
  lemma NoOrphanAfterCancellation(s: State, events: seq<Event>, t: State, o: Id)
    requires Reachable(s) && Run(s, events, t) && o in s.cells && s.cells[o].p.row.status == Cancelled
    ensures o in t.cells && t.cells[o].p.row.status == Cancelled
    ensures t.cells[o].v.Some? ==> t.cells[o].v.value.status == Cancelled
    ensures forall item :: Stock.Held(t.cells[o], item) == 0
    ensures s.cells[o].p.jobs != [] && (s.cells[o].p.jobs[0].attempts == 0 ==> t.cells[o].v.None?)
  {
    hide Protocol.Inv, Money.Priced, Stock.NotNegative, C.Inv, Later, Apply, CanHappen, Run;
    ReachableIsSound(s);
    RunKeepsInv(s, events, t);
    assert Sound(s.cells[o], o, s.purchases[o]) && Sound(t.cells[o], o, t.purchases[o]);
    CancelledMeansReleased(s.cells[o], t.cells[o]);
  }

  /** A terminal status and its history never change again; a refusal to cancel is final as well. */
  lemma TerminalForEver(s: State, events: seq<Event>, t: State, o: Id)
    requires Reachable(s) && Run(s, events, t) && o in s.cells
    ensures o in t.cells
    ensures Terminal(s.cells[o].p.row.status) ==>
      t.cells[o].p.row.status == s.cells[o].p.row.status && t.cells[o].p.history == s.cells[o].p.history
    ensures s.cells[o].p.row.cancellation == P.Refused ==>
      t.cells[o].p.row.status != Cancelled && t.cells[o].v.Some? && t.cells[o].v.value.status != Cancelled
  {
    hide Protocol.Inv, Money.Priced, Carries, Stock.NotNegative, C.Inv, Later, Apply, CanHappen, Run;
    ReachableIsSound(s);
    RunKeepsInv(s, events, t);
    assert Sound(s.cells[o], o, s.purchases[o]) && Sound(t.cells[o], o, t.purchases[o]);
    if Terminal(s.cells[o].p.row.status) {
      TerminalIsFinal(s.cells[o], t.cells[o]);
    }
    if s.cells[o].p.row.cancellation == P.Refused {
      RefusalIsFinal(s.cells[o], t.cells[o]);
    }
  }

  /** The venue repeats its first decision, whatever happened to menu and stock in between. */
  lemma DecisionIsStable(s: State, events: seq<Event>, t: State, o: Id, shop: V.Shop, command: OrderCommand, newId: Id)
    requires Reachable(s) && Run(s, events, t) && o in s.cells && s.cells[o].v.Some?
    requires V.ValidCommand(command)
    ensures o in t.cells && t.cells[o].v.Some?
    ensures V.Serve(shop, t.cells[o].v, command, newId) ==
      V.Answer(shop, t.cells[o].v, Commit(s.cells[o].v.value.decision))
  {
    hide V.ValidCommand, Protocol.Inv, Money.Priced, Carries, Run;
    ReachableIsSound(s);
    RunKeepsInv(s, events, t);
  }

  /** The venue repeats its first answer to a cancellation and touches neither order nor stock again. */
  lemma CancellationIsStable(s: State, events: seq<Event>, t: State, o: Id, menu: V.Menu, eventId: Id, now: int)
    requires Reachable(s) && Run(s, events, t) && o in s.cells && s.cells[o].v.Some?
    requires s.cells[o].v.value.cancelDecision.Some?
    ensures o in t.cells
    ensures V.Cancel(menu, t.cells[o].v, eventId, now) ==
      V.CancelAnswer(menu, t.cells[o].v, Commit(s.cells[o].v.value.cancelDecision.value))
  {
    hide Protocol.Inv, Money.Priced, Carries, Run, V.Release;
    ReachableIsSound(s);
    RunKeepsInv(s, events, t);
  }

  /** Every history is a legal walk from `pending` to the current status. */
  lemma HistoryIsLegal(s: State, o: Id)
    requires Reachable(s) && o in s.cells
    ensures var h, status := s.cells[o].p.history, s.cells[o].p.row.status;
      && |h| > 0 && h[0].status == Pending && h[|h| - 1].status == status
      && (forall k :: 0 <= k < |h| - 1 ==> Edge(h[k].status, h[k + 1].status))
  {
    hide Money.Priced, Carries, Initial, Run;
    ReachableIsSound(s);
    assert Sound(s.cells[o], o, s.purchases[o]);
    hide Edge;
    var h := s.cells[o].p.history;
    forall k: nat | k < |h| - 1 ensures Edge(h[k].status, h[k + 1].status) {
      assert LegalStep(h, k);
    }
  }

  // ---------- what events do ----------

  lemma NewCellIsPlaced(s: State, order: Id, request: K.Request, timeout: int)
    requires K.ValidRequest(request) && C.UniqueIds(s.front.tables) && K.Price(s.front, request).Commit?
    ensures var basket := K.Price(s.front, request).state;
      var c := NewCell(s, order, request, basket, timeout);
      && c.v.None? && c.net == NO_NET
      && PlatformRules.Placed(c.p, s.front.id, order, request.menuVersion, basket, s.front.currency,
                              s.now + timeout, s.now)
      && K.Charges(s.front.tables, request.items, basket.items) && basket.amount == K.SumOf(basket.items)
  {
    hide K.Price, K.ValidRequest, C.UniqueIds, K.Charges, K.SumOf, PlatformRules.Placed, P.Create, K.CommandOf;
    var basket := K.Price(s.front, request).state;
    K.PriceIsCharged(s.front, request);
    PlatformRules.CreateRules(s.front.id, order, request, basket, s.front.currency, s.now + timeout, s.now);
  }

  /** A checkout that is accepted for the first time adds its order, as charged, and nothing else; any other checkout
      changes nothing. */
  lemma CheckoutIsRecorded(s: State, order: Id, key: string, request: K.Request, timeout: int)
    requires C.Inv(s.front.tables) && order !in s.cells
    ensures var t, reply := Apply(s, PlaceOrder(order, key, request, timeout)),
                            K.Place(s.purchases, s.front, order, key, request);
      if reply.Commit? && K.FindOrder(s.purchases, request.customer, key).None? then
        && t == s.(cells := t.cells, purchases := t.purchases)
        && reply.state.0 == order && order in t.cells && t.cells == s.cells[order := t.cells[order]]
        && t.cells[order].v.None? && t.cells[order].net == NO_NET
        && PlatformRules.Placed(t.cells[order].p, s.front.id, order, request.menuVersion, reply.state.1,
                                s.front.currency, s.now + timeout, s.now)
        && K.Charges(s.front.tables, request.items, reply.state.1.items)
        && reply.state.1.amount == K.SumOf(reply.state.1.items)
        && t.purchases == s.purchases[order := K.Purchase(request.customer, key, K.Canonical(request), reply.state.1)]
      else t == s
  {
    assert C.UniqueIds(s.front.tables);
    hide C.Inv, C.UniqueIds, K.Price, K.ValidRequest, K.Canonical, K.Charges, K.SumOf, NewCell, PlatformRules.Placed;
    if K.ValidRequest(request) && K.Price(s.front, request).Commit? {
      NewCellIsPlaced(s, order, request, timeout);
    }
  }

  lemma {:induction false} AvailabilityStays(s: State, events: seq<Event>, t: State)
    requires Run(s, events, t) && forall e :: e in events ==> !e.SetAvailability?
    ensures t.front.accepting == s.front.accepting && t.front.id == s.front.id
    decreases |events|
  {
    hide C.Inv, CanHappen, K.Place, NewCell, Step;
    if events != [] {
      assert events[0] in events;
      AvailabilityStays(Apply(s, events[0]), events[1..], t);
    }
  }

  /** Until it is set again, the availability decides: a closed venue refuses every new checkout as closed, an open
      one none. */
  lemma AvailabilityDecides(s: State, accepting: bool, events: seq<Event>, t: State, request: K.Request)
    requires Reachable(s) && C.Inv(s.front.tables) && Run(Apply(s, SetAvailability(accepting)), events, t)
    requires forall e :: e in events ==> !e.SetAvailability?
    requires K.ValidRequest(request) && request.venue == t.front.id
    ensures C.Inv(t.front.tables)
    ensures K.Price(t.front, request) == Rollback(K.Error.VenueClosed) <==> !accepting
  {
    hide Reachable, Run, OrdersAreSound, AllLater, K.ValidRequest, C.Shows, C.ValidSnapshot, K.OneOrderPerKey;
    var changed := Apply(s, SetAvailability(accepting));
    ReachableIsSound(s);
    EventKeepsInv(s, SetAvailability(accepting));
    AvailabilityStays(changed, events, t);
    RunKeepsInv(changed, events, t);
  }

  // ---------- idempotent checkout ----------

  /** Over any continuation a repeated checkout returns the first order with unchanged lines and amount, even
      after the menu changed or the venue closed; another request under the same key is refused. */
  lemma RepeatedCheckout(s: State, events: seq<Event>, t: State, o: Id, request: K.Request, newOrder: Id, timeout: int)
    requires Reachable(s) && Run(s, events, t) && o in s.purchases && newOrder !in t.cells
    requires K.ValidRequest(request) && request.customer == s.purchases[o].customer
    ensures C.Inv(t.front.tables)
    ensures var key := s.purchases[o].key;
      && K.Place(t.purchases, t.front, newOrder, key, request) ==
           (if s.purchases[o].canonical == K.Canonical(request)
            then Commit((o, s.purchases[o].basket)) else Rollback(K.KeyReused))
      && Apply(t, PlaceOrder(newOrder, key, request, timeout)) == t
  {
    hide OrdersAreSound, Run, Later, K.Price;
    ReachableIsSound(s);
    RunKeepsInv(s, events, t);
    assert K.Bought(t.purchases, o, request.customer, s.purchases[o].key);
  }

  // ---------- stock over all orders ----------

  function HeldOf(item: Id): Cell -> int {
    c => Stock.Held(c, item)
  }

  ghost function TotalHeld(cells: map<Id, Cell>, item: Id): int {
    Stock.Sum(cells, HeldOf(item))
  }

  /** The quantity of an item on the shelf and in all held orders. */
  ghost function Accounted(s: State, item: Id): int
    requires Stock.Finite(s.shop.menu, item)
  {
    s.shop.menu[item].stock.value + TotalHeld(s.cells, item)
  }

  lemma EventConservesStock(s: State, e: Event, item: Id)
    requires System.Inv(s) && CanHappen(s, e) && Stock.Finite(s.shop.menu, item)
    ensures Stock.Finite(Apply(s, e).shop.menu, item)
    ensures Accounted(Apply(s, e), item) == Accounted(s, item)
  {
    hide Protocol.Inv, Money.Priced, Carries, K.Price, K.ValidRequest, Step, Enabled;
    var t := Apply(s, e);
    if e.Act? {
      var o := e.order;
      assert Sound(s.cells[o], o, s.purchases[o]);
      Stock.StepConserves(s.cells[o], WorldOf(s), e.action);
      Stock.SumUpdated(s.cells, o, t.cells[o], HeldOf(item));
    } else if e.PlaceOrder? && t.cells != s.cells {
      Stock.SumUpdated(s.cells, e.order, t.cells[e.order], HeldOf(item));
    }
  }

  /** Over every run the shelf and the held orders account for the same quantity, and the shelf is never negative. */
  lemma {:induction false} StockIsConserved(s: State, events: seq<Event>, t: State, item: Id)
    requires System.Inv(s) && Run(s, events, t) && Stock.Finite(s.shop.menu, item)
    ensures Stock.Finite(t.shop.menu, item) && t.shop.menu[item].stock.value >= 0
    ensures Accounted(t, item) == Accounted(s, item)
    decreases |events|
  {
    if events != [] {
      EventKeepsInv(s, events[0]);
      EventConservesStock(s, events[0], item);
      StockIsConserved(Apply(s, events[0]), events[1..], t, item);
    }
  }

  /** From the start: what is on the shelf plus what accepted orders hold is the initial stock. */
  lemma NothingOversold(s: State, events: seq<Event>, t: State, item: Id)
    requires Initial(s) && Run(s, events, t) && Stock.Finite(s.shop.menu, item)
    ensures Stock.Finite(t.shop.menu, item)
    ensures t.shop.menu[item].stock.value + TotalHeld(t.cells, item) == s.shop.menu[item].stock.value
    ensures t.shop.menu[item].stock.value >= 0
  {
    InitialIsSound(s);
    StockIsConserved(s, events, t, item);
  }

  // ---------- the published menu ----------

  /** Versions never go back, one version is one menu, and a known external id keeps its row id. */
  ghost predicate MenuLater(a: C.Tables, b: C.Tables) {
    && (a.version.Some? ==> b.version.Some? && a.version.value <= b.version.value)
    && (a.version.Some? && a.version == b.version ==> a == b)
    && (forall e :: e in a.categories ==> e in b.categories && b.categories[e].id == a.categories[e].id)
    && (forall e :: e in a.items ==> e in b.items && b.items[e].id == a.items[e].id)
  }

  lemma MenuLaterIsTransitive(a: C.Tables, b: C.Tables, c: C.Tables)
    requires MenuLater(a, b) && MenuLater(b, c)
    ensures MenuLater(a, c)
  {
  }

  lemma EventKeepsMenu(s: State, e: Event)
    requires System.Inv(s) && CanHappen(s, e)
    ensures MenuLater(s.front.tables, Apply(s, e).front.tables)
  {
    hide Protocol.Inv, Money.Priced, Carries, K.Price, K.ValidRequest, Step, Enabled, C.Shows, C.UniqueIds;
    if e.PublishMenu? {
      C.ReplaceKeepsInv(s.front.tables, e.tables, e.snapshot);
    }
  }

  lemma {:induction false} MenuOverRun(s: State, events: seq<Event>, t: State)
    requires System.Inv(s) && Run(s, events, t)
    ensures MenuLater(s.front.tables, t.front.tables)
    decreases |events|
  {
    hide System.Inv, MenuLater, Apply, CanHappen;
    if events == [] {
      SameMenu(s.front.tables);
    } else {
      EventKeepsInv(s, events[0]);
      EventKeepsMenu(s, events[0]);
      MenuOverRun(Apply(s, events[0]), events[1..], t);
      MenuLaterIsTransitive(s.front.tables, Apply(s, events[0]).front.tables, t.front.tables);
    }
  }

  lemma SameMenu(a: C.Tables)
    ensures MenuLater(a, a)
  {
  }

  /** In every reachable state the menu reads back as the snapshot accepted at the stored version, and two
      readers of one version, however far apart, see the same menu. */
  lemma OneVersionOneMenu(s: State, events: seq<Event>, t: State, categoryRows: seq<Id>, itemRows: seq<(Id, Id)>,
                          laterCategoryRows: seq<Id>, laterItemRows: seq<(Id, Id)>)
    requires Reachable(s) && Run(s, events, t)
    requires M.CategoryAnswer(s.front.tables, categoryRows) && M.ItemAnswer(s.front.tables, itemRows)
    requires M.CategoryAnswer(t.front.tables, laterCategoryRows) && M.ItemAnswer(t.front.tables, laterItemRows)
    ensures M.RowsExist(s.front.tables, categoryRows, itemRows)
    ensures M.RowsExist(t.front.tables, laterCategoryRows, laterItemRows)
    ensures s.front.tables.version.Some? ==>
      t.front.tables.version.Some? && s.front.tables.version.value <= t.front.tables.version.value
    ensures t.front.tables.version.Some? ==>
      && t.front.tables.accepted.Some? && t.front.tables.accepted.value.version == t.front.tables.version.value
      && M.ReadMenu(t.front.tables, laterCategoryRows, laterItemRows) ==
           Commit(M.Displayed(t.front.tables, t.front.tables.accepted.value))
    ensures s.front.tables.version == t.front.tables.version && s.front.tables.version.Some? ==>
      M.ReadMenu(s.front.tables, categoryRows, itemRows) == M.ReadMenu(t.front.tables, laterCategoryRows, laterItemRows)
  {
    hide M.ReadMenu, M.CategoryAnswer, M.ItemAnswer, M.RowsExist, M.Displayed, OrdersAreSound, Run;
    ReachableIsSound(s);
    RunKeepsInv(s, events, t);
    MenuOverRun(s, events, t);
    M.RoundTrip(s.front.tables, categoryRows, itemRows);
    M.RoundTrip(t.front.tables, laterCategoryRows, laterItemRows);
  }

  /** A valid snapshot newer than the stored one is shown: whatever rows the two queries return after its publication,
      the menu reads back as that snapshot. */
  lemma NewerMenuIsShown(s: State, e: Event, categoryRows: seq<Id>, itemRows: seq<(Id, Id)>)
    requires Reachable(s) && C.Inv(s.front.tables) && CanHappen(s, e) && e.PublishMenu?
    requires s.front.tables.version.Some? ==> e.snapshot.version > s.front.tables.version.value
    requires var t := Apply(s, e).front.tables; M.CategoryAnswer(t, categoryRows) && M.ItemAnswer(t, itemRows)
    ensures var t := Apply(s, e).front.tables;
      && t.version == Some(e.snapshot.version) && t.accepted == Some(e.snapshot)
      && M.RowsExist(t, categoryRows, itemRows)
      && M.ReadMenu(t, categoryRows, itemRows) == Commit(M.Displayed(t, e.snapshot))
  {
    var t := Apply(s, e).front.tables;
    assert t.version == Some(e.snapshot.version) && t.accepted == Some(e.snapshot) by {
      hide C.Shows, C.KeepsRows, C.UniqueIds, C.ValidSnapshot;
    }
    hide M.ReadMenu, M.CategoryAnswer, M.ItemAnswer, M.RowsExist, M.Displayed, Run, Initial, C.Replaces;
    C.ReplaceKeepsInv(s.front.tables, t, e.snapshot);
    M.RoundTrip(t, categoryRows, itemRows);
  }
}
