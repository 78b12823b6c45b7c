/** The venue's side: menu rows with stock, and one order with its callback queue. */
module Venue {
  import opened Types

  datatype MenuItem = MenuItem(name: string, price: int, currency: Currency, stock: Option<int>, available: bool)

  type Menu = map<Id, MenuItem>

  /** `venue_menu_items`, the newest row of `venue_menu_versions`, and `venue_settings`. */
  datatype Shop = Shop(menu: Menu, version: int, accepting: bool)

  /** A row of `venue_outbox`. */
  datatype CallbackRow = CallbackRow(
    event: OrderEvent, attempts: nat, availableAt: int,
    lockedUntil: Option<int>, token: Option<Id>, processedAt: Option<int>)
  {
    predicate Open() { processedAt.None? }
  }

  /** A row of `venue_orders` with its rows in `venue_order_items` and `venue_outbox`. */
  datatype Order = Order(
    id: Id, lines: seq<Line>, decision: Decision, status: Status,
    nextSequence: int, cancelDecision: Option<CancelDecision>, callbacks: seq<CallbackRow>)

  datatype Error = NotFound | InvalidTransition | LeaseLost | Invalid | AmountOverflow

  datatype CallbackClaim = CallbackClaim(row: nat, token: Id, event: OrderEvent, attempts: nat, until: int)

  // ---------- service.go: validation of an incoming command ----------

  /** Text lengths and the shape of identifiers are left out. */
  ghost predicate ValidLine(line: Line) {
    && 1 <= line.quantity <= 100
    && 0 <= line.price
    && line.price * line.quantity <= MAX_INT64
  }

  ghost predicate ValidCommand(command: OrderCommand) {
    && command.menuVersion >= 1
    && 1 <= |command.lines| <= 100
    && (forall i :: 0 <= i < |command.lines| ==> ValidLine(command.lines[i]))
    && UniqueItems(command.lines)
  }

  // ---------- orders.go: the scan of the requested lines ----------

  predicate Offered(menu: Menu, line: Line) {
    && line.item in menu
    && menu[line.item].available
    && (menu[line.item].stock.Some? ==> menu[line.item].stock.value >= line.quantity)
  }

  /** The line no longer matches the menu: another price, or not the currency of an earlier offered line. */
  ghost predicate Mismatch(menu: Menu, lines: seq<Line>, i: nat)
    requires i < |lines|
  {
    && lines[i].item in menu
    && (|| menu[lines[i].item].price != lines[i].price
        || exists j ::
             0 <= j < i && Offered(menu, lines[j]) && menu[lines[j].item].currency != menu[lines[i].item].currency)
  }

  /** The requested lines that can be served, in command order. */
  function OfferedLines(menu: Menu, lines: seq<Line>): seq<Line> {
    if lines == [] then []
    else
      var last := lines[|lines| - 1];
      OfferedLines(menu, lines[..|lines| - 1]) + (if Offered(menu, last) then [last] else [])
  }

  /** The missing, switched off or short items, in command order. */
  function Shortages(menu: Menu, lines: seq<Line>): seq<Id> {
    if lines == [] then []
    else
      var last := lines[|lines| - 1];
      Shortages(menu, lines[..|lines| - 1]) + (if Offered(menu, last) then [] else [last.item])
  }

  datatype Verdict =
    | Changed
    | Overflow
    | Short(items: seq<Id>)
    | Served(amount: int, currency: Currency)

  /** A mismatch wins unless the running total of the offered lines before it already left int64. */
  ghost predicate SeesMismatch(menu: Menu, lines: seq<Line>) {
    exists i :: 0 <= i < |lines| && Mismatch(menu, lines, i) && Total(OfferedLines(menu, lines[..i])) <= MAX_INT64
  }

  ghost function Judge(menu: Menu, lines: seq<Line>): Verdict
    requires |lines| > 0
  {
    if SeesMismatch(menu, lines) then Changed
    else if Total(OfferedLines(menu, lines)) > MAX_INT64 then Overflow
    else if Shortages(menu, lines) != [] then Short(Shortages(menu, lines))
    else
      NoShortage(menu, lines);
      Served(Total(lines), menu[lines[0].item].currency)
  }

  lemma {:induction false} NoShortage(menu: Menu, lines: seq<Line>)
    requires Shortages(menu, lines) == []
    ensures forall i :: 0 <= i < |lines| ==> Offered(menu, lines[i])
    ensures OfferedLines(menu, lines) == lines
  {
    if lines != [] {
      var front, last := lines[..|lines| - 1], lines[|lines| - 1];
      assert Offered(menu, last);
      NoShortage(menu, front);
      assert lines == front + [last];
    }
  }

  // ---------- orders.go: stock ----------

  function Take(menu: Menu, line: Line): Menu {
    if line.item in menu && menu[line.item].stock.Some?
    then menu[line.item := menu[line.item].(stock := Some(menu[line.item].stock.value - line.quantity))]
    else menu
  }

  /** One UPDATE per line. */
  function Reserve(menu: Menu, lines: seq<Line>): Menu {
    if lines == [] then menu
    else Take(Reserve(menu, lines[..|lines| - 1]), lines[|lines| - 1])
  }

  /** The quantity on the single line that `UPDATE ... FROM` joins to an item; 0 when none matches. */
  function Joined(lines: seq<Line>, item: Id): int {
    if lines == [] then 0
    else if lines[0].item == item then lines[0].quantity
    else Joined(lines[1..], item)
  }

  /** One UPDATE over the whole menu: every finite-stock item gets one matching line back. */
  function Release(menu: Menu, lines: seq<Line>): Menu {
    map item | item in menu ::
      if menu[item].stock.Some?
      then menu[item].(stock := Some(menu[item].stock.value + Joined(lines, item)))
      else menu[item]
  }

  // ---------- orders.go: DecideOrder ----------

  function RejectedOrder(newId: Id, decision: Decision): Order {
    Order(newId, [], decision, Rejected, 1, None, [])
  }

  datatype Answer = Answer(shop: Shop, order: Option<Order>, reply: Tx<Decision, Error>)

  ghost function Refuse(shop: Shop, newId: Id, reason: RejectReason, unavailable: seq<Id>): Answer {
    var decision := Reject(reason, shop.version, unavailable);
    Answer(shop, Some(RejectedOrder(newId, decision)), Commit(decision))
  }

  /** The repository transaction, for a command that passed validation. */
  ghost function Decide(shop: Shop, existing: Option<Order>, command: OrderCommand, newId: Id): Answer
    requires |command.lines| > 0
  {
    if existing.Some? then Answer(shop, existing, Commit(existing.value.decision))
    else if !shop.accepting then Refuse(shop, newId, VenueClosed, [])
    else if command.menuVersion != shop.version then Refuse(shop, newId, MenuChanged, [])
    else match Judge(shop.menu, command.lines) {
      case Changed => Refuse(shop, newId, MenuChanged, [])
      case Overflow => Answer(shop, None, Rollback(AmountOverflow))
      case Short(items) => Refuse(shop, newId, ItemsUnavailable, items)
      case Served(amount, currency) =>
        var decision := Accept(newId, amount, currency);
        Answer(shop.(menu := Reserve(shop.menu, command.lines)),
               Some(Order(newId, command.lines, decision, Accepted, 1, None, [])),
               Commit(decision))
    }
  }

  /** The service call: validation, then the transaction. */
  ghost function Serve(shop: Shop, existing: Option<Order>, command: OrderCommand, newId: Id): Answer {
    if ValidCommand(command) then Decide(shop, existing, command, newId)
    else Answer(shop, existing, Rollback(Invalid))
  }

  // ---------- orders.go: CancelOrder and transitionOrder ----------

  function NewCallback(event: OrderEvent, now: int): CallbackRow {
    CallbackRow(event, 0, now, None, None, None)
  }

  function Emit(v: Order, status: Status, kind: EventKind, eventId: Id, now: int): Order {
    v.(status := status, nextSequence := v.nextSequence + 1,
       callbacks := v.callbacks + [NewCallback(OrderEvent(eventId, v.nextSequence, kind), now)])
  }

  datatype CancelAnswer = CancelAnswer(menu: Menu, order: Option<Order>, reply: Tx<CancelDecision, Error>)

  function Cancel(menu: Menu, existing: Option<Order>, eventId: Id, now: int): CancelAnswer {
    if existing.None? then CancelAnswer(menu, None, Rollback(NotFound))
    else
      var v := existing.value;
      if v.cancelDecision.Some? then CancelAnswer(menu, existing, Commit(v.cancelDecision.value))
      else if v.status != Accepted then
        var decision := CancelRefused(v.status);
        CancelAnswer(menu, Some(v.(cancelDecision := Some(decision))), Commit(decision))
      else
        CancelAnswer(Release(menu, v.lines),
          Some(Emit(v, Cancelled, OrderCancelled, eventId, now).(cancelDecision := Some(CancelConfirmed))),
          Commit(CancelConfirmed))
  }

  /** What StartPreparing, MarkReady and Complete pass to transitionOrder. */
  datatype Move = StartPreparing | MarkReady | Complete {
    function Expected(): Status {
      match this
      case StartPreparing => Accepted
      case MarkReady => Preparing
      case Complete => Ready
    }
    function Target(): Status {
      match this
      case StartPreparing => Preparing
      case MarkReady => Ready
      case Complete => Completed
    }
    function Kind(): EventKind {
      match this
      case StartPreparing => OrderPreparing
      case MarkReady => OrderReady
      case Complete => OrderCompleted
    }
  }

  function Transition(v: Order, move: Move, eventId: Id, now: int): Tx<Order, Error> {
    if v.status == move.Target() then Commit(v)
    else if v.status != move.Expected() then Rollback(InvalidTransition)
    else Commit(Emit(v, move.Target(), move.Kind(), eventId, now))
  }

  // ---------- callbacks.go ----------

  predicate CallbackClaimable(v: Order, k: nat, now: int) {
    && k < |v.callbacks|
    && v.callbacks[k].Open()
    && v.callbacks[k].availableAt <= now
    && (v.callbacks[k].lockedUntil.None? || v.callbacks[k].lockedUntil.value < now)
    && (forall j :: 0 <= j < |v.callbacks| && v.callbacks[j].event.sequence < v.callbacks[k].event.sequence
          ==> !v.callbacks[j].Open())
  }

  function ClaimCallback(v: Order, k: nat, token: Id, now: int, lease: int): Order
    requires k < |v.callbacks|
  {
    v.(callbacks := v.callbacks[k := v.callbacks[k].(
      lockedUntil := Some(now + lease), token := Some(token), attempts := v.callbacks[k].attempts + 1)])
  }

  function CallbackClaimOf(v: Order, k: nat, token: Id, now: int, lease: int): CallbackClaim
    requires k < |v.callbacks|
  {
    CallbackClaim(k, token, v.callbacks[k].event, v.callbacks[k].attempts + 1, now + lease)
  }

  predicate OwnsCallback(v: Order, k: nat, token: Id) {
    k < |v.callbacks| && v.callbacks[k].token == Some(token) && v.callbacks[k].Open()
  }

  function CompleteCallback(v: Order, k: nat, token: Id, now: int): Tx<Order, Error> {
    if !OwnsCallback(v, k, token) then Rollback(LeaseLost)
    else Commit(v.(callbacks := v.callbacks[k := v.callbacks[k].(
      processedAt := Some(now), lockedUntil := None, token := None)]))
  }

  function RetryCallback(v: Order, k: nat, token: Id, availableAt: int): Tx<Order, Error> {
    if !OwnsCallback(v, k, token) then Rollback(LeaseLost)
    else Commit(v.(callbacks := v.callbacks[k := v.callbacks[k].(
      availableAt := availableAt, lockedUntil := None, token := None)]))
  }

  // ---------- what every venue transaction keeps ----------

  /** The events issued so far, oldest first. */
  function Log(v: Order): (log: seq<OrderEvent>)
    ensures |log| == |v.callbacks|
  {
    seq(|v.callbacks|, k requires 0 <= k < |v.callbacks| => v.callbacks[k].event)
  }

  /** The complete list of event kinds an order in each status has issued. */
  function LogOf(status: Status): seq<EventKind> {
    match status {
      case Preparing => [OrderPreparing]
      case Ready => [OrderPreparing, OrderReady]
      case Completed => [OrderPreparing, OrderReady, OrderCompleted]
      case Cancelled => [OrderCancelled]
      case _ => []
    }
  }

  ghost predicate LogMatchesStatus(v: Order) {
    && v.status != Pending && v.status != Expired
    && v.nextSequence == |v.callbacks| + 1
    && |v.callbacks| == |LogOf(v.status)|
    && (forall k :: 0 <= k < |v.callbacks| ==>
          v.callbacks[k].event.sequence == k + 1 && v.callbacks[k].event.kind == LogOf(v.status)[k])
    && (forall j, k :: 0 <= j < k < |v.callbacks| ==> v.callbacks[j].event.id != v.callbacks[k].event.id)
  }

  ghost predicate DecisionsMatchStatus(v: Order) {
    && (v.decision.Reject? <==> v.status == Rejected)
    && (v.decision.Accept? ==> v.decision.externalId == v.id)
    && (v.cancelDecision == Some(CancelConfirmed) <==> v.status == Cancelled)
    && (v.cancelDecision.Some? ==> v.status != Accepted)
    && UniqueItems(v.lines)
    && (forall i :: 0 <= i < |v.lines| ==> v.lines[i].quantity > 0)
  }

  /** Delivered callbacks are a prefix, and a lease is only held behind delivered callbacks. */
  ghost predicate DeliveredInOrder(v: Order) {
    && (forall j, k :: 0 <= j < k < |v.callbacks| && !v.callbacks[k].Open() ==> !v.callbacks[j].Open())
    && (forall j, k :: 0 <= j < k < |v.callbacks| && v.callbacks[k].token.Some? ==> !v.callbacks[j].Open())
    && (forall k :: 0 <= k < |v.callbacks| ==>
          (v.callbacks[k].token.Some? ==> v.callbacks[k].Open() && v.callbacks[k].lockedUntil.Some?)
          && (v.callbacks[k].token.None? ==> v.callbacks[k].lockedUntil.None?))
  }

  ghost predicate Inv(v: Order) {
    LogMatchesStatus(v) && DecisionsMatchStatus(v) && DeliveredInOrder(v)
  }

  ghost predicate FreshEvent(v: Order, id: Id) {
    forall k :: 0 <= k < |v.callbacks| ==> v.callbacks[k].event.id != id
  }

  lemma AcceptedKeepsInv(newId: Id, command: OrderCommand)
    requires ValidCommand(command)
    ensures forall amount, currency ::
      Inv(Order(newId, command.lines, Accept(newId, amount, currency), Accepted, 1, None, []))
    ensures forall decision: Decision :: decision.Reject? ==> Inv(RejectedOrder(newId, decision))
  {
    assert UniqueItems([]);
    forall i | 0 <= i < |command.lines| ensures command.lines[i].quantity > 0 {
      assert ValidLine(command.lines[i]);
    }
    hide UniqueItems;
  }

  lemma ServeKeepsInv(shop: Shop, existing: Option<Order>, command: OrderCommand, newId: Id)
    requires existing.Some? ==> Inv(existing.value)
    ensures var order := Serve(shop, existing, command, newId).order; order.Some? ==> Inv(order.value)
  {
    hide Judge, Reserve, ValidLine, UniqueItems, Inv;
    if ValidCommand(command) {
      AcceptedKeepsInv(newId, command);
    }
  }

  /** One more event, numbered and fresh, keeps the log and the delivery order. */
  lemma EmitKeepsLog(v: Order, status: Status, kind: EventKind, eventId: Id, now: int, saved: Option<CancelDecision>)
    requires LogMatchesStatus(v) && DeliveredInOrder(v) && FreshEvent(v, eventId)
    requires LogOf(status) == LogOf(v.status) + [kind] && status != Pending && status != Expired
    ensures var u := Emit(v, status, kind, eventId, now).(cancelDecision := saved);
      LogMatchesStatus(u) && DeliveredInOrder(u)
  {
    EmitKeepsNumbers(v, status, kind, eventId, now, saved);
    hide LogMatchesStatus;
  }

  lemma EmitKeepsNumbers(v: Order, status: Status, kind: EventKind, eventId: Id, now: int,
                         saved: Option<CancelDecision>)
    requires LogMatchesStatus(v) && FreshEvent(v, eventId)
    requires LogOf(status) == LogOf(v.status) + [kind] && status != Pending && status != Expired
    ensures LogMatchesStatus(Emit(v, status, kind, eventId, now).(cancelDecision := saved))
  {
  }

  lemma CancelKeepsInv(menu: Menu, existing: Option<Order>, eventId: Id, now: int)
    requires existing.Some? ==> Inv(existing.value) && FreshEvent(existing.value, eventId)
    ensures var order := Cancel(menu, existing, eventId, now).order; order.Some? ==> Inv(order.value)
  {
    hide Release, UniqueItems;
    if existing.Some? && existing.value.status == Accepted {
      EmitKeepsLog(existing.value, Cancelled, OrderCancelled, eventId, now, Some(CancelConfirmed));
      hide LogMatchesStatus, DeliveredInOrder;
    }
  }

  lemma TransitionKeepsInv(v: Order, move: Move, eventId: Id, now: int)
    requires Inv(v) && FreshEvent(v, eventId)
    ensures var t := Transition(v, move, eventId, now); t.Commit? ==> Inv(t.state)
  {
    if v.status == move.Expected() {
      EmitKeepsLog(v, move.Target(), move.Kind(), eventId, now, v.cancelDecision);
      hide LogMatchesStatus, DeliveredInOrder;
    }
  }

  lemma ClaimKeepsInv(v: Order, k: nat, token: Id, now: int, lease: int)
    requires Inv(v) && CallbackClaimable(v, k, now)
    ensures Inv(ClaimCallback(v, k, token, now, lease))
    ensures forall j :: 0 <= j < k ==> !v.callbacks[j].Open()
  {
  }

  lemma CompleteKeepsInv(v: Order, k: nat, token: Id, now: int)
    requires Inv(v) && OwnsCallback(v, k, token)
    ensures Inv(CompleteCallback(v, k, token, now).state)
  {
  }

  lemma RetryKeepsInv(v: Order, k: nat, token: Id, availableAt: int)
    requires Inv(v) && OwnsCallback(v, k, token)
    ensures Inv(RetryCallback(v, k, token, availableAt).state)
  {
  }
}
