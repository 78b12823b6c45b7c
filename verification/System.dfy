/** All orders together: both databases, the network, the menus and the clock, over whole runs. */
module System {
  import opened Types
  import opened Protocol
  import opened Progress
  import P = Platform
  import V = Venue
  import C = Catalog
  import K = Checkout
  import Money
  import Stock

  datatype State = State(
    cells: map<Id, Cell>, purchases: map<Id, K.Purchase>,
    front: K.Storefront, shop: V.Shop, now: int, maxAttempts: int)

  datatype Event =
    | PlaceOrder(order: Id, key: string, request: K.Request, timeout: int)
    | Act(order: Id, action: Action)
    | PublishMenu(snapshot: C.Snapshot, tables: C.Tables)
    | SetAvailability(accepting: bool)
    | EditShop(shop: V.Shop)       // prices, availability, version, opening: anything but stock
    | Tick(elapsed: nat)

  ghost predicate Initial(s: State) {
    s.cells == map[] && s.purchases == map[] && C.Inv(s.front.tables) && Stock.NotNegative(s.shop.menu)
  }

  function WorldOf(s: State): World {
    World(s.shop, s.now, s.front.id, s.maxAttempts)
  }

  function NewCell(s: State, order: Id, request: K.Request, basket: K.Basket, timeout: int): Cell {
    Cell(P.Create(s.front.id, K.CommandOf(order, request, basket), basket.amount, s.front.currency,
         s.now + timeout, s.now),
         None, NO_NET)
  }

  ghost predicate FreshEverywhere(s: State, eventId: Id) {
    forall o :: o in s.cells ==> FreshEvent(s.cells[o], eventId)
  }

  /** The lookup by event id over all orders but one. */
  ghost predicate RecordedElsewhere(s: State, order: Id, eventId: Id) {
    exists o :: o in s.cells && o != order && P.FindEvent(s.cells[o].p.received, eventId).Some?
  }

  ghost predicate CanHappen(s: State, e: Event)
    requires C.Inv(s.front.tables)
  {
    match e {
      case PlaceOrder(order, _, _, _) => order !in s.cells
      case Act(o, a) =>
        && o in s.cells && Enabled(s.cells[o], WorldOf(s), a)
        && (a.VenueCancels? || a.StaffMoves? ==> FreshEverywhere(s, a.eventId))
        && (a.PlatformRecords? ==> (a.elsewhere <==> RecordedElsewhere(s, o, a.callback.event.id)))
      case PublishMenu(snapshot, tables) => C.ValidSnapshot(snapshot) && C.Replaces(s.front.tables, tables, snapshot)
      case SetAvailability(_) => true
      case EditShop(shop) =>
        && shop.menu.Keys == s.shop.menu.Keys
        && (forall i :: i in shop.menu ==> shop.menu[i].stock == s.shop.menu[i].stock)
      case Tick(_) => true
    }
  }

  ghost function Apply(s: State, e: Event): State
    requires C.Inv(s.front.tables) && CanHappen(s, e)
  {
    match e {
      case PlaceOrder(order, key, request, timeout) =>
        var reply := K.Place(s.purchases, s.front, order, key, request);
        if reply.Commit? && K.FindOrder(s.purchases, request.customer, key).None? then
          s.(cells := s.cells[order := NewCell(s, order, request, reply.state.1, timeout)],
             purchases := s.purchases[order := K.Purchase(request.customer, key, K.Canonical(request), reply.state.1)])
        else s
      case Act(o, a) =>
        var next := Step(s.cells[o], WorldOf(s), a);
        s.(cells := s.cells[o := next.cell], shop := next.shop)
      case PublishMenu(_, tables) => s.(front := s.front.(tables := tables))
      case SetAvailability(accepting) => s.(front := s.front.(accepting := accepting))
      case EditShop(shop) => s.(shop := shop)
      case Tick(elapsed) => s.(now := s.now + elapsed)
    }
  }

  // ---------- the invariant of every reachable state ----------

  /** The confirmation job carries the lines and the amount that checkout computed. */
  ghost predicate Carries(c: Cell, o: Id, b: K.Purchase) {
    && |c.p.jobs| > 0 && c.p.jobs[0].kind.ConfirmOrder?
    && c.p.jobs[0].kind.command.order == o
    && c.p.jobs[0].kind.command.lines == K.CommandLines(b.basket.items)
    && c.p.row.amount == b.basket.amount
  }

  ghost predicate Sound(c: Cell, o: Id, b: K.Purchase) {
    Protocol.Inv(c) && Money.Priced(c) && Carries(c, o, b)
  }

  ghost predicate OrdersAreSound(s: State) {
    && s.cells.Keys == s.purchases.Keys
    && (forall o :: o in s.cells ==> Sound(s.cells[o], o, s.purchases[o]))
  }

  ghost predicate Inv(s: State) {
    OrdersAreSound(s) && K.OneOrderPerKey(s.purchases) && C.Inv(s.front.tables) && Stock.NotNegative(s.shop.menu)
  }

  lemma CommandIsValid(s: State, order: Id, request: K.Request, basket: K.Basket)
    requires C.Inv(s.front.tables) && K.ValidRequest(request) && K.Price(s.front, request) == Commit(basket)
    ensures V.ValidCommand(K.CommandOf(order, request, basket))
    ensures Total(K.CommandOf(order, request, basket).lines) == basket.amount <= MAX_INT64
  {
    K.PlacedCommandIsValid(s.front, request, order);
    var lines := K.CommandOf(order, request, basket).lines;
    forall i | 0 <= i < |lines| ensures V.ValidLine(lines[i]) {
      assert lines[i].quantity == request.items[i].quantity;
    }
  }

  lemma NewCellCarries(s: State, order: Id, request: K.Request, basket: K.Basket, timeout: int)
    ensures var c := NewCell(s, order, request, basket, timeout);
      && c.v.None? && |c.p.jobs| > 0 && c.p.jobs[0].kind == P.ConfirmOrder(K.CommandOf(order, request, basket))
      && K.CommandOf(order, request, basket).order == order
      && K.CommandOf(order, request, basket).lines == K.CommandLines(basket.items)
      && c.p.row.amount == basket.amount
  {
  }

  lemma NewCellIsSound(s: State, order: Id, key: string, request: K.Request, basket: K.Basket, timeout: int)
    requires C.Inv(s.front.tables) && K.ValidRequest(request) && K.Price(s.front, request) == Commit(basket)
    ensures Sound(NewCell(s, order, request, basket, timeout), order,
                  K.Purchase(request.customer, key, K.Canonical(request), basket))
  {
    hide Protocol.Inv, P.Create, K.CommandOf, C.Inv, K.ValidRequest, K.Price, K.Canonical, V.ValidCommand, Total;
    CommandIsValid(s, order, request, basket);
    NewCellCarries(s, order, request, basket, timeout);
    Protocol.CreateEstablishes(s.front.id, K.CommandOf(order, request, basket), basket.amount,
                               s.front.currency, s.now + timeout, s.now);
  }

  lemma AllSound(s: State, t: State, order: Id)
    requires OrdersAreSound(s) && t.cells.Keys == t.purchases.Keys
    requires order in t.cells && Sound(t.cells[order], order, t.purchases[order])
    requires forall o :: o in t.cells && o != order ==>
      o in s.cells && t.cells[o] == s.cells[o] && t.purchases[o] == s.purchases[o]
    ensures OrdersAreSound(t)
  {
  }

  lemma PlaceKeepsInv(s: State, e: Event)
    requires Inv(s) && CanHappen(s, e) && e.PlaceOrder?
    ensures Inv(Apply(s, e))
  {
    hide Sound, Stock.NotNegative, NewCell, C.Shows, C.ValidSnapshot;
    hide K.Price, K.ValidRequest, K.Canonical, K.OneOrderPerKey;
    if K.ValidRequest(e.request) && K.FindOrder(s.purchases, e.request.customer, e.key).None? &&
         K.Price(s.front, e.request).Commit? {
      var basket := K.Price(s.front, e.request).state;
      NewCellIsSound(s, e.order, e.key, e.request, basket, e.timeout);
      AllSound(s, Apply(s, e), e.order);
      K.AddPurchase(s.purchases, e.order, K.Purchase(e.request.customer, e.key, K.Canonical(e.request), basket));
    }
  }

  lemma StepKeepsSound(c: Cell, w: World, a: Action, o: Id, b: K.Purchase)
    requires Sound(c, o, b) && Enabled(c, w, a)
    ensures Sound(Step(c, w, a).cell, o, b)
  {
    StepKeepsInv(c, w, a);
    Money.StepKeepsPriced(c, w, a);
    StepIsLater(c, w, a);
  }

  lemma ActKeepsInv(s: State, e: Event)
    requires Inv(s) && CanHappen(s, e) && e.Act?
    ensures Inv(Apply(s, e))
  {
    hide Protocol.Inv, Money.Priced, Carries, Stock.NotNegative, Stock.Conserves, Enabled, Step, C.Inv;
    var c, w := s.cells[e.order], WorldOf(s);
    var next := Step(c, w, e.action);
    StepKeepsSound(c, w, e.action, e.order, s.purchases[e.order]);
    Stock.StepConserves(c, w, e.action);
    AllSound(s, Apply(s, e), e.order);
  }

  lemma OtherKeepsInv(s: State, e: Event)
    requires Inv(s) && CanHappen(s, e) && !e.PlaceOrder? && !e.Act?
    ensures Inv(Apply(s, e))
  {
    if e.PublishMenu? {
      C.ReplaceKeepsInv(s.front.tables, e.tables, e.snapshot);
    }
  }

  lemma EventKeepsInv(s: State, e: Event)
    requires Inv(s) && CanHappen(s, e)
    ensures Inv(Apply(s, e))
  {
    if e.PlaceOrder? {
      PlaceKeepsInv(s, e);
    } else if e.Act? {
      ActKeepsInv(s, e);
    } else {
      OtherKeepsInv(s, e);
    }
  }
}
