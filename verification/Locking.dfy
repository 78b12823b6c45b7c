/** The venue's transactions interleaved statement by statement under their locks: decisions, cancellations and
    staff moves. The menu rows that a transaction has locked are the ones it has seen; what it saw is the version
    that everybody else still reads. */
module Locking {
  import opened Types
  import V = Venue
  import Stock

  datatype Call =
    | Decide(command: OrderCommand, newId: Id)
    | Cancel(order: Id, eventId: Id, at: int)
    | Move(order: Id, move: V.Move, eventId: Id, at: int)
  {
    function Order(): Id {
      if Decide? then command.order else order
    }
  }

  datatype Reply =
    | Decided(decision: Tx<Decision, V.Error>)
    | Answered(answer: Tx<CancelDecision, V.Error>)
    | Moved(result: Tx<V.Order, V.Error>)

  datatype Phase =
    | Arrived
    | Entered                        // holds the advisory lock of its order, or the row of its order
    | Scanning                       // a decision locks its menu rows one by one, in ascending id order
    | Reserving(next: nat)           // the first `next` lines are reserved
    | Releasing(lines: seq<Line>)    // a cancellation locks and releases its menu rows, in any order
    | Done(reply: Reply)
    | Aborted

  datatype Txn = Txn(call: Call, phase: Phase, seen: V.Menu) {
    predicate HoldsAdvisory() { call.Decide? && (phase.Entered? || phase.Scanning? || phase.Reserving?) }
    predicate HoldsOrderRow() { !call.Decide? && (phase.Entered? || phase.Releasing?) }
    predicate HoldsRows() { phase.Scanning? || phase.Reserving? || phase.Releasing? }
    predicate Finished() { phase.Done? || phase.Aborted? }
    function Lines(): seq<Line> {
      if call.Decide? then call.command.lines else if phase.Releasing? then phase.lines else []
    }
  }

  /** `shop.menu` and `orders` hold the newest version of every row. Menu rows may be uncommitted; an order row
      is written by the last statement of its transaction only. */
  datatype Database = Database(shop: V.Shop, orders: map<Id, V.Order>, txns: seq<Txn>)

  function Needed(menu: V.Menu, lines: seq<Line>): set<Id> {
    set i | 0 <= i < |lines| && lines[i].item in menu :: lines[i].item
  }

  /** The menu rows that a transaction locks: a release skips the rows without finite stock. */
  function Wanted(menu: V.Menu, txn: Txn): set<Id> {
    if txn.call.Decide? then Needed(menu, txn.Lines())
    else set i | i in Needed(menu, txn.Lines()) && menu[i].stock.Some?
  }

  function Remaining(db: Database, t: nat): set<Id>
    requires t < |db.txns|
  {
    Wanted(db.shop.menu, db.txns[t]) - db.txns[t].seen.Keys
  }

  lemma {:induction false} LeastBelow(s: set<Id>, x: Id)
    requires x in s
    ensures exists y :: y in s && forall z :: z in s ==> y <= z
    decreases x
  {
    if y :| y in s && y < x {
      LeastBelow(s, y);
    } else {
      assert forall z :: z in s ==> x <= z;
    }
  }

  ghost function Least(s: set<Id>): (x: Id)
    requires s != {}
    ensures x in s && forall y :: y in s ==> x <= y
  {
    var any :| any in s;
    LeastBelow(s, any);
    var x :| x in s && forall y :: y in s ==> x <= y;
    x
  }

  ghost predicate Free(db: Database, item: Id) {
    forall u :: 0 <= u < |db.txns| ==> item !in db.txns[u].seen
  }

  /** The next statement need not wait; `item` is the menu row that it locks, if it locks one. */
  ghost predicate CanAdvance(db: Database, t: nat, item: Id) {
    && t < |db.txns|
    && var txn := db.txns[t];
       match txn.phase {
         case Arrived =>
           forall u :: 0 <= u < |db.txns| && db.txns[u].call.Order() == txn.call.Order() ==>
             if txn.call.Decide? then !db.txns[u].HoldsAdvisory() else !db.txns[u].HoldsOrderRow()
         case Scanning => Remaining(db, t) != {} ==> item == Least(Remaining(db, t)) && Free(db, item)
         case Releasing(_) => Remaining(db, t) != {} ==> item in Remaining(db, t) && Free(db, item)
         case Done(_) => false
         case Aborted => false
         case _ => true
       }
  }

  function With(db: Database, t: nat, txn: Txn): Database
    requires t < |db.txns|
  {
    db.(txns := db.txns[t := txn])
  }

  /** Commits or rolls back, which releases every lock. */
  function Finish(db: Database, t: nat, reply: Reply): Database
    requires t < |db.txns|
  {
    With(db, t, db.txns[t].(phase := Done(reply), seen := map[]))
  }

  function Store(db: Database, order: Id, v: V.Order): Database {
    db.(orders := db.orders[order := v])
  }

  function Refuse(db: Database, t: nat, reason: RejectReason, unavailable: seq<Id>): Database
    requires t < |db.txns| && db.txns[t].call.Decide?
  {
    var decision := Reject(reason, db.shop.version, unavailable);
    var call := db.txns[t].call;
    Finish(Store(db, call.command.order, V.RejectedOrder(call.newId, decision)), t, Decided(Commit(decision)))
  }

  /** What every transaction needs to be well defined. */
  predicate WellFormed(db: Database, txn: Txn) {
    && (txn.call.Decide? ==> |txn.call.command.lines| > 0 && !txn.phase.Releasing?)
    && (!txn.call.Decide? ==> !txn.phase.Scanning? && !txn.phase.Reserving?)
    && (txn.call.Move? ==> !txn.phase.Releasing?)
    && (txn.HoldsOrderRow() ==> txn.call.order in db.orders)
  }

  /** The next statement of a decision. */
  ghost function AdvanceDecision(db: Database, t: nat, item: Id): (d: Database)
    requires CanAdvance(db, t, item) && WellFormed(db, db.txns[t]) && db.txns[t].call.Decide?
    ensures |d.txns| == |db.txns| && d.txns[t := db.txns[t]] == db.txns
    ensures d.shop.(menu := db.shop.menu) == db.shop
  {
    var txn := db.txns[t];
    var command := txn.call.command;
    match txn.phase {
      case Arrived => With(db, t, txn.(phase := Entered))
      case Entered =>
        if command.order in db.orders then Finish(db, t, Decided(Commit(db.orders[command.order].decision)))
        else if !db.shop.accepting then Refuse(db, t, VenueClosed, [])
        else if command.menuVersion != db.shop.version then Refuse(db, t, MenuChanged, [])
        else With(db, t, txn.(phase := Scanning))
      case Scanning =>
        if Remaining(db, t) != {} then With(db, t, txn.(seen := txn.seen[item := db.shop.menu[item]]))
        else match V.Judge(txn.seen, command.lines) {
          case Changed => Refuse(db, t, MenuChanged, [])
          case Overflow => Finish(db, t, Decided(Rollback(V.AmountOverflow)))
          case Short(items) => Refuse(db, t, ItemsUnavailable, items)
          case Served(_, _) => With(db, t, txn.(phase := Reserving(0)))
        }
      case Reserving(k) =>
        if k < |command.lines| then
          var menu := V.Take(db.shop.menu, command.lines[k]);
          With(db.(shop := db.shop.(menu := menu)), t, txn.(phase := Reserving(k + 1)))
        else match V.Judge(txn.seen, command.lines) {
          case Served(amount, currency) =>
            var decision := Accept(txn.call.newId, amount, currency);
            var v := V.Order(txn.call.newId, command.lines, decision, Accepted, 1, None, []);
            Finish(Store(db, command.order, v), t, Decided(Commit(decision)))
          case _ => db
        }
      case _ => db
    }
  }

  /** One row of the release: `stock_quantity + ordered.quantity` on its newest version. */
  function Returned(row: V.MenuItem, quantity: int): V.MenuItem {
    if row.stock.Some? then row.(stock := Some(row.stock.value + quantity)) else row
  }

  /** The transaction and the menu after one more row is locked and given its quantity back. */
  function Locked(menu: V.Menu, txn: Txn, item: Id): Txn
    requires item in menu
  {
    txn.(seen := txn.seen[item := menu[item]])
  }

  function Given(menu: V.Menu, lines: seq<Line>, item: Id): V.Menu
    requires item in menu
  {
    menu[item := Returned(menu[item], V.Joined(lines, item))]
  }

  /** The next statement of a cancellation; the release takes one row at a time. */
  ghost function AdvanceCancel(db: Database, t: nat, item: Id): (d: Database)
    requires CanAdvance(db, t, item) && WellFormed(db, db.txns[t]) && db.txns[t].call.Cancel?
    ensures |d.txns| == |db.txns| && d.txns[t := db.txns[t]] == db.txns
    ensures d.shop.(menu := db.shop.menu) == db.shop
  {
    var txn := db.txns[t];
    var order := txn.call.order;
    match txn.phase {
      case Arrived =>
        if order !in db.orders then Finish(db, t, Answered(Rollback(V.NotFound)))
        else With(db, t, txn.(phase := Entered))
      case Entered =>
        var v := db.orders[order];
        if v.cancelDecision.Some? then Finish(db, t, Answered(Commit(v.cancelDecision.value)))
        else if v.status != Accepted then
          var refused := CancelRefused(v.status);
          Finish(Store(db, order, v.(cancelDecision := Some(refused))), t, Answered(Commit(refused)))
        else With(db, t, txn.(phase := Releasing(v.lines)))
      case Releasing(lines) =>
        if Remaining(db, t) != {} then
          With(db.(shop := db.shop.(menu := Given(db.shop.menu, lines, item))), t, Locked(db.shop.menu, txn, item))
        else
          var v := V.Emit(db.orders[order], Cancelled, OrderCancelled, txn.call.eventId, txn.call.at);
          Finish(Store(db, order, v.(cancelDecision := Some(CancelConfirmed))), t, Answered(Commit(CancelConfirmed)))
      case _ => db
    }
  }

  /** The next statement of a staff move, which touches no menu row. */
  ghost function AdvanceMove(db: Database, t: nat, item: Id): (d: Database)
    requires CanAdvance(db, t, item) && WellFormed(db, db.txns[t]) && db.txns[t].call.Move?
    ensures |d.txns| == |db.txns| && d.txns[t := db.txns[t]] == db.txns
    ensures d.shop.(menu := db.shop.menu) == db.shop
  {
    var txn := db.txns[t];
    var order := txn.call.order;
    match txn.phase {
      case Arrived =>
        if order !in db.orders then Finish(db, t, Moved(Rollback(V.NotFound)))
        else With(db, t, txn.(phase := Entered))
      case Entered =>
        var moved := V.Transition(db.orders[order], txn.call.move, txn.call.eventId, txn.call.at);
        Finish(if moved.Commit? then Store(db, order, moved.state) else db, t, Moved(moved))
      case _ => db
    }
  }

  /** A statement changes its own transaction only, and never the settings. */
  ghost function Advance(db: Database, t: nat, item: Id): (d: Database)
    requires CanAdvance(db, t, item) && WellFormed(db, db.txns[t])
    ensures |d.txns| == |db.txns| && d.txns[t := db.txns[t]] == db.txns
    ensures d.shop.(menu := db.shop.menu) == db.shop
  {
    match db.txns[t].call {
      case Decide(_, _) => AdvanceDecision(db, t, item)
      case Cancel(_, _, _) => AdvanceCancel(db, t, item)
      case Move(_, _, _, _) => AdvanceMove(db, t, item)
    }
  }

  /** A failure at any moment: the rows go back to what the transaction saw. */
  function Abort(db: Database, t: nat): Database
    requires t < |db.txns|
  {
    var txn := db.txns[t];
    var menu := map i | i in db.shop.menu :: if i in txn.seen then txn.seen[i] else db.shop.menu[i];
    With(db.(shop := db.shop.(menu := menu)), t, txn.(phase := Aborted, seen := map[]))
  }

  function Arrive(db: Database, call: Call): Database {
    db.(txns := db.txns + [Txn(call, Arrived, map[])])
  }

  // ---------- the invariant ----------

  function Reserved(txn: Txn): nat {
    if txn.phase.Reserving? then txn.phase.next else 0
  }

  /** The newest versions of the rows that a transaction holds. */
  function Written(txn: Txn): V.Menu
    requires Reserved(txn) <= |txn.Lines()|
  {
    match txn.phase {
      case Reserving(k) => V.Reserve(txn.seen, txn.Lines()[..k])
      case Releasing(lines) => V.Release(txn.seen, lines)
      case _ => txn.seen
    }
  }

  ghost predicate SoundLines(lines: seq<Line>) {
    UniqueItems(lines) && forall i :: 0 <= i < |lines| ==> lines[i].quantity > 0
  }

  ghost predicate Proceeds(db: Database, txn: Txn) {
    && WellFormed(db, txn)
    && (txn.call.Decide? ==> V.ValidCommand(txn.call.command))
    && (txn.seen != map[] ==> txn.HoldsRows())
    && (txn.phase.Scanning? || txn.phase.Reserving? ==>
          && txn.call.command.order !in db.orders
          && db.shop.accepting && txn.call.command.menuVersion == db.shop.version)
    && Reserved(txn) <= |txn.Lines()|
    && (txn.phase.Reserving? ==> V.Judge(txn.seen, txn.Lines()).Served?)
    && (txn.phase.Releasing? ==>
          var v := db.orders[txn.call.order];
          v.status == Accepted && v.cancelDecision.None? && v.lines == txn.phase.lines)
  }

  /** What is locked is wanted; decisions lock in ascending order and write only when they have every row. */
  ghost predicate LocksAscend(menu: V.Menu, txn: Txn) {
    var wanted := Wanted(menu, txn);
    && txn.seen.Keys <= wanted
    && (txn.call.Decide? ==> Ascending(menu, txn))
    && (txn.phase.Reserving? ==> txn.seen.Keys == wanted)
  }

  ghost predicate Ascending(menu: V.Menu, txn: Txn) {
    forall a, b :: a in txn.seen && b in Wanted(menu, txn) && b !in txn.seen ==> a < b
  }

  ghost predicate RowsMatch(menu: V.Menu, txn: Txn)
    requires Reserved(txn) <= |txn.Lines()|
  {
    forall i :: i in txn.seen ==> i in menu && i in Written(txn) && menu[i] == Written(txn)[i]
  }

  ghost predicate Disjoint(txns: seq<Txn>) {
    forall t, u :: 0 <= t < |txns| && 0 <= u < |txns| && t != u ==>
      && txns[t].seen.Keys !! txns[u].seen.Keys
      && (txns[t].call.Order() == txns[u].call.Order() ==>
            && !(txns[t].HoldsAdvisory() && txns[u].HoldsAdvisory())
            && !(txns[t].HoldsOrderRow() && txns[u].HoldsOrderRow()))
  }

  ghost predicate Inv(db: Database) {
    && Disjoint(db.txns)
    && (forall o :: o in db.orders ==> SoundLines(db.orders[o].lines))
    && (forall t :: 0 <= t < |db.txns| ==>
          && Proceeds(db, db.txns[t])
          && LocksAscend(db.shop.menu, db.txns[t])
          && RowsMatch(db.shop.menu, db.txns[t]))
  }

  /** The invariant, for one transaction. */
  lemma Facts(db: Database, t: nat)
    requires Inv(db) && t < |db.txns|
    ensures Proceeds(db, db.txns[t]) && LocksAscend(db.shop.menu, db.txns[t]) && RowsMatch(db.shop.menu, db.txns[t])
  {
  }

  // ---------- what other transactions and later ones see ----------

  ghost predicate Holder(db: Database, t: nat, item: Id) {
    t < |db.txns| && item in db.txns[t].seen
  }

  /** The committed version of a row. */
  ghost function CommittedRow(db: Database, item: Id): V.MenuItem
    requires item in db.shop.menu
  {
    if exists t: nat :: Holder(db, t, item) then
      var t: nat :| Holder(db, t, item);
      db.txns[t].seen[item]
    else db.shop.menu[item]
  }

  ghost function Committed(db: Database): V.Menu {
    map i | i in db.shop.menu :: CommittedRow(db, i)
  }

  lemma HeldOnce(db: Database, item: Id)
    requires Inv(db)
    ensures forall t: nat, u: nat :: Holder(db, t, item) && Holder(db, u, item) ==> t == u
  {
  }

  lemma HeldRow(db: Database, t: nat, item: Id)
    requires Inv(db) && Holder(db, t, item)
    ensures item in db.shop.menu && CommittedRow(db, item) == db.txns[t].seen[item]
  {
  }

  /** One transaction may lock, release or write rows without changing any committed version. */
  lemma SameCommitted(db: Database, d: Database, t: nat)
    requires Inv(db) && Inv(d) && t < |db.txns| == |d.txns| && d.txns[t := db.txns[t]] == db.txns
    requires d.shop.menu.Keys == db.shop.menu.Keys
    requires forall i :: i in db.shop.menu ==>
      if i in d.txns[t].seen then
        d.txns[t].seen[i] == if i in db.txns[t].seen then db.txns[t].seen[i] else db.shop.menu[i]
      else
        d.shop.menu[i] == if i in db.txns[t].seen then db.txns[t].seen[i] else db.shop.menu[i]
    ensures Committed(d) == Committed(db)
  {
    forall i | i in db.shop.menu ensures CommittedRow(d, i) == CommittedRow(db, i) {
      SameRow(db, d, t, i);
    }
  }

  lemma SameRow(db: Database, d: Database, t: nat, i: Id)
    requires Inv(db) && Inv(d) && t < |db.txns| == |d.txns| && d.txns[t := db.txns[t]] == db.txns
    requires i in db.shop.menu && i in d.shop.menu
    requires
      if i in d.txns[t].seen then
        d.txns[t].seen[i] == if i in db.txns[t].seen then db.txns[t].seen[i] else db.shop.menu[i]
      else
        d.shop.menu[i] == if i in db.txns[t].seen then db.txns[t].seen[i] else db.shop.menu[i]
    ensures CommittedRow(d, i) == CommittedRow(db, i)
  {
    HeldOnce(db, i);
    HeldOnce(d, i);
    forall u: nat | u != t ensures Holder(db, u, i) <==> Holder(d, u, i) {
      assert u < |db.txns| ==> d.txns[t := db.txns[t]][u] == d.txns[u];
    }
    if u: nat :| u != t && Holder(db, u, i) {
      HeldRow(db, u, i);
      HeldRow(d, u, i);
    } else {
      if Holder(db, t, i) { HeldRow(db, t, i); }
      if Holder(d, t, i) { HeldRow(d, t, i); }
    }
  }

  // ---------- the verdict depends on the requested rows only ----------

  ghost predicate SameRows(menu: V.Menu, other: V.Menu, lines: seq<Line>) {
    forall i :: 0 <= i < |lines| ==>
      && (lines[i].item in menu <==> lines[i].item in other)
      && (lines[i].item in menu ==> menu[lines[i].item] == other[lines[i].item])
  }

  lemma {:induction false} SameScan(menu: V.Menu, other: V.Menu, lines: seq<Line>)
    requires SameRows(menu, other, lines)
    ensures V.OfferedLines(menu, lines) == V.OfferedLines(other, lines)
    ensures V.Shortages(menu, lines) == V.Shortages(other, lines)
  {
    if lines != [] {
      SameScan(menu, other, lines[..|lines| - 1]);
    }
  }

  lemma SameMismatch(menu: V.Menu, other: V.Menu, lines: seq<Line>, i: nat)
    requires SameRows(menu, other, lines) && i < |lines|
    ensures V.Mismatch(menu, lines, i) <==> V.Mismatch(other, lines, i)
  {
  }

  lemma SameVerdict(menu: V.Menu, other: V.Menu, lines: seq<Line>)
    requires SameRows(menu, other, lines) && |lines| > 0
    ensures V.Judge(menu, lines) == V.Judge(other, lines)
  {
    hide V.Mismatch, V.Offered;
    SameScan(menu, other, lines);
    forall i | 0 <= i < |lines|
      ensures V.Mismatch(menu, lines, i) <==> V.Mismatch(other, lines, i)
      ensures V.OfferedLines(menu, lines[..i]) == V.OfferedLines(other, lines[..i])
    {
      SameMismatch(menu, other, lines, i);
      SameScan(menu, other, lines[..i]);
    }
    if V.Shortages(menu, lines) == [] {
      V.NoShortage(menu, lines);
      V.NoShortage(other, lines);
      FirstIsListed(menu, lines);
    }
  }

  lemma FirstIsListed(menu: V.Menu, lines: seq<Line>)
    requires |lines| > 0 && V.Offered(menu, lines[0])
    ensures lines[0].item in menu
  {
  }

  // ---------- every statement keeps the invariant ----------

  /** Orders are added by a decision that found none, and replaced by the holder of the order's row. */
  ghost predicate MayStore(db: Database, t: nat, orders: map<Id, V.Order>)
    requires t < |db.txns|
  {
    var txn := db.txns[t];
    || orders == db.orders
    || (&& orders - {txn.call.Order()} == db.orders - {txn.call.Order()}
        && txn.call.Order() in orders && SoundLines(orders[txn.call.Order()].lines)
        && (txn.HoldsOrderRow() || (txn.HoldsAdvisory() && txn.call.Order() !in db.orders)))
  }

  lemma OthersProceed(db: Database, t: nat, u: nat, orders: map<Id, V.Order>)
    requires Disjoint(db.txns) && t < |db.txns| && u < |db.txns| && u != t
    requires MayStore(db, t, orders) && Proceeds(db, db.txns[t]) && Proceeds(db, db.txns[u])
    ensures Proceeds(db.(orders := orders), db.txns[u])
  {
    hide V.ValidCommand, V.Judge, SoundLines;
    var o, x := db.txns[u].call.Order(), db.txns[t].call.Order();
    if o != x {
      assert o in orders - {x} <==> o in orders;
      assert o in db.orders - {x} <==> o in db.orders;
    }
  }

  lemma OrdersStaySound(db: Database, t: nat, orders: map<Id, V.Order>)
    requires Inv(db) && t < |db.txns| && MayStore(db, t, orders)
    ensures forall o :: o in orders ==> SoundLines(orders[o].lines)
  {
    hide SoundLines;
    var x := db.txns[t].call.Order();
    forall o | o in orders && o != x ensures o in db.orders && orders[o] == db.orders[o] {
      assert o in orders - {x} || orders == db.orders;
    }
  }

  lemma StepKeepsInv(db: Database, t: nat, txn: Txn, orders: map<Id, V.Order>)
    requires Inv(db) && t < |db.txns| && txn.call == db.txns[t].call && MayStore(db, t, orders)
    requires Proceeds(db.(orders := orders), txn) && LocksAscend(db.shop.menu, txn) && RowsMatch(db.shop.menu, txn)
    requires forall u :: 0 <= u < |db.txns| && u != t ==> txn.seen.Keys !! db.txns[u].seen.Keys
    requires forall u :: 0 <= u < |db.txns| && u != t && db.txns[u].call.Order() == txn.call.Order() ==>
      && !(txn.HoldsAdvisory() && db.txns[u].HoldsAdvisory())
      && !(txn.HoldsOrderRow() && db.txns[u].HoldsOrderRow())
    ensures Inv(With(db.(orders := orders), t, txn))
  {
    OrdersStaySound(db, t, orders);
    forall u | 0 <= u < |db.txns| && u != t ensures Proceeds(db.(orders := orders), db.txns[u]) {
      OthersProceed(db, t, u, orders);
    }
    hide LocksAscend, RowsMatch, Proceeds, SoundLines, MayStore;
    SameProceeds(db.(orders := orders), t, txn);
  }

  /** Being able to proceed does not depend on the other transactions. */
  lemma SameProceeds(db: Database, t: nat, txn: Txn)
    requires t < |db.txns|
    ensures forall u :: 0 <= u < |db.txns| ==> (Proceeds(With(db, t, txn), db.txns[u]) <==> Proceeds(db, db.txns[u]))
    ensures Proceeds(With(db, t, txn), txn) <==> Proceeds(db, txn)
  {
    hide V.ValidCommand, V.Judge;
  }

  /** Locking or writing menu rows that nobody else holds. */
  lemma WriteKeepsInv(db: Database, t: nat, menu: V.Menu, txn: Txn)
    requires Inv(db) && t < |db.txns| && txn.call == db.txns[t].call
    requires menu.Keys == db.shop.menu.Keys
    requires forall i :: i in menu ==> (menu[i].stock.Some? <==> db.shop.menu[i].stock.Some?)
    requires forall i :: i in menu && i !in db.txns[t].seen && i !in txn.seen ==> menu[i] == db.shop.menu[i]
    requires forall u :: 0 <= u < |db.txns| && u != t ==> txn.seen.Keys !! db.txns[u].seen.Keys
    requires txn.HoldsAdvisory() ==> db.txns[t].HoldsAdvisory()
    requires txn.HoldsOrderRow() ==> db.txns[t].HoldsOrderRow()
    requires Proceeds(db, txn) && LocksAscend(menu, txn) && RowsMatch(menu, txn)
    ensures Inv(With(db.(shop := db.shop.(menu := menu)), t, txn))
  {
    hide V.ValidCommand, V.Judge, SoundLines;
    var d := With(db.(shop := db.shop.(menu := menu)), t, txn);
    forall u | 0 <= u < |db.txns| && u != t
      ensures Proceeds(d, db.txns[u]) && LocksAscend(menu, db.txns[u]) && RowsMatch(menu, db.txns[u])
    {
      OthersKeepRows(db.shop.menu, menu, db.txns[t], txn, db.txns[u]);
    }
  }

  lemma OthersKeepRows(menu: V.Menu, after: V.Menu, was: Txn, txn: Txn, other: Txn)
    requires after.Keys == menu.Keys
    requires forall i :: i in after ==> (after[i].stock.Some? <==> menu[i].stock.Some?)
    requires forall i :: i in after && i !in was.seen && i !in txn.seen ==> after[i] == menu[i]
    requires was.seen.Keys !! other.seen.Keys && txn.seen.Keys !! other.seen.Keys
    requires Reserved(other) <= |other.Lines()| && LocksAscend(menu, other) && RowsMatch(menu, other)
    ensures LocksAscend(after, other) && RowsMatch(after, other)
  {
    SameWants(menu, after, other);
    hide Written, Wanted;
  }

  lemma SameWants(menu: V.Menu, after: V.Menu, txn: Txn)
    requires after.Keys == menu.Keys
    requires forall i :: i in after ==> (after[i].stock.Some? <==> menu[i].stock.Some?)
    ensures Wanted(after, txn) == Wanted(menu, txn)
  {
    assert Needed(after, txn.Lines()) == Needed(menu, txn.Lines());
  }

  // ---------- refinement: a transaction acts at its last statement ----------

  function Lookup(orders: map<Id, V.Order>, order: Id): Option<V.Order> {
    if order in orders then Some(orders[order]) else None
  }

  function Recorded(orders: map<Id, V.Order>, order: Id, v: Option<V.Order>): map<Id, V.Order> {
    if v.Some? then orders[order := v.value] else orders
  }

  datatype Outcome = Outcome(shop: V.Shop, orders: map<Id, V.Order>, reply: Reply)

  /** One uninterrupted call. */
  ghost function Perform(shop: V.Shop, orders: map<Id, V.Order>, call: Call): Outcome {
    var existing := Lookup(orders, call.Order());
    match call {
      case Decide(command, newId) =>
        var answer := V.Serve(shop, existing, command, newId);
        Outcome(answer.shop, Recorded(orders, command.order, answer.order), Decided(answer.reply))
      case Cancel(order, eventId, at) =>
        var answer := V.Cancel(shop.menu, existing, eventId, at);
        Outcome(shop.(menu := answer.menu), Recorded(orders, order, answer.order), Answered(answer.reply))
      case Move(order, move, eventId, at) =>
        if existing.None? then Outcome(shop, orders, Moved(Rollback(V.NotFound)))
        else
          var moved := V.Transition(existing.value, move, eventId, at);
          Outcome(shop, if moved.Commit? then orders[order := moved.state] else orders, Moved(moved))
    }
  }

  /** The database as any other transaction reads it. */
  ghost function Visible(db: Database): V.Shop {
    db.shop.(menu := Committed(db))
  }

  /** Nothing that is committed changes, or the transaction completes with the effect and the reply of one
      uninterrupted call. */
  ghost predicate Refines(db: Database, d: Database, t: nat)
    requires t < |db.txns| == |d.txns|
  {
    if d.txns[t].phase.Done? then
      Perform(Visible(db), db.orders, db.txns[t].call) == Outcome(Visible(d), d.orders, d.txns[t].phase.reply)
    else Visible(d) == Visible(db) && d.orders == db.orders
  }

  /** A transaction that has locked at most some rows ends or goes on without a trace in the menu. */
  lemma NothingWritten(db: Database, t: nat, txn: Txn, orders: map<Id, V.Order>)
    requires Inv(db) && t < |db.txns| && txn.call == db.txns[t].call && MayStore(db, t, orders)
    requires !db.txns[t].phase.Reserving? && !db.txns[t].phase.Releasing?
    requires txn.seen == map[] && (txn.Finished() || (txn.HoldsAdvisory() ==> db.txns[t].HoldsAdvisory()))
    requires txn.Finished() || (txn.HoldsOrderRow() ==> db.txns[t].HoldsOrderRow())
    requires Proceeds(db.(orders := orders), txn) && !txn.phase.Reserving?
    ensures Inv(With(db.(orders := orders), t, txn))
    ensures Committed(With(db.(orders := orders), t, txn)) == Committed(db)
  {
    hide V.Judge, V.ValidCommand, SoundLines, MayStore;
    LocksNothing(db.shop.menu, txn);
    assert RowsMatch(db.shop.menu, db.txns[t]);
    StepKeepsInv(db, t, txn, orders);
    SameCommitted(db, With(db.(orders := orders), t, txn), t);
  }

  lemma LocksNothing(menu: V.Menu, txn: Txn)
    requires txn.seen == map[] && Reserved(txn) == 0 && !txn.phase.Reserving?
    ensures LocksAscend(menu, txn) && RowsMatch(menu, txn)
  {
  }

  lemma Ends(db: Database, t: nat, orders: map<Id, V.Order>, reply: Reply)
    requires Inv(db) && t < |db.txns| && MayStore(db, t, orders)
    requires !db.txns[t].phase.Reserving? && !db.txns[t].phase.Releasing?
    ensures var d := Finish(db.(orders := orders), t, reply); Inv(d) && Visible(d) == Visible(db)
  {
    assert Proceeds(db, db.txns[t]);
    hide V.Judge, V.ValidCommand, SoundLines, MayStore, Inv, Committed;
    NothingWritten(db, t, db.txns[t].(phase := Done(reply), seen := map[]), orders);
  }

  lemma Starts(db: Database, t: nat, item: Id)
    requires Inv(db) && CanAdvance(db, t, item) && db.txns[t].phase.Arrived?
    ensures WellFormed(db, db.txns[t]) && Inv(Advance(db, t, item)) && Refines(db, Advance(db, t, item), t)
  {
    hide Inv, V.Judge, V.ValidCommand, SoundLines, V.Transition;
    Facts(db, t);
    var txn := db.txns[t];
    var d := Advance(db, t, item);
    if d.txns[t].phase.Done? {
      Ends(db, t, db.orders, d.txns[t].phase.reply);
    } else {
      LocksNothing(db.shop.menu, d.txns[t]);
      StepKeepsInv(db, t, d.txns[t], db.orders);
      SameCommitted(db, d, t);
    }
  }

  // ---------- decisions ----------

  lemma Checking(db: Database, t: nat, item: Id)
    requires Inv(db) && CanAdvance(db, t, item) && db.txns[t].phase.Entered? && db.txns[t].call.Decide?
    ensures WellFormed(db, db.txns[t]) && Inv(Advance(db, t, item)) && Refines(db, Advance(db, t, item), t)
  {
    hide Inv, V.Judge, V.ValidCommand, Committed;
    Facts(db, t);
    var txn := db.txns[t];
    var command := txn.call.command;
    if command.order in db.orders {
      Ends(db, t, db.orders, Decided(Commit(db.orders[command.order].decision)));
    } else if !db.shop.accepting {
      RefusalKeepsInv(db, t, VenueClosed, []);
    } else if command.menuVersion != db.shop.version {
      RefusalKeepsInv(db, t, MenuChanged, []);
    } else {
      hide LocksAscend, RowsMatch;
      NothingWritten(db, t, txn.(phase := Scanning), db.orders);
    }
  }

  lemma LeastAscends(menu: V.Menu, txn: Txn, item: Id, row: V.MenuItem)
    requires txn.phase.Scanning? && txn.call.Decide? && LocksAscend(menu, txn)
    requires var remaining := Wanted(menu, txn) - txn.seen.Keys;
      item in remaining && forall b :: b in remaining ==> item <= b
    ensures LocksAscend(menu, txn.(seen := txn.seen[item := row]))
  {
    var wanted, next := Wanted(menu, txn), txn.(seen := txn.seen[item := row]);
    assert Wanted(menu, next) == wanted;
    forall a, b | a in next.seen && b in wanted && b !in next.seen ensures a < b {
      assert b in wanted - txn.seen.Keys;
      assert a != item ==> a in txn.seen;
    }
  }

  lemma LockingOne(db: Database, t: nat, item: Id)
    requires Inv(db) && CanAdvance(db, t, item) && db.txns[t].phase.Scanning? && Remaining(db, t) != {}
    ensures WellFormed(db, db.txns[t]) && Inv(Advance(db, t, item)) && Refines(db, Advance(db, t, item), t)
  {
    hide Inv, V.Judge, V.ValidCommand, SoundLines;
    Facts(db, t);
    var txn, d := db.txns[t], Advance(db, t, item);
    NothingClashes(db, t, txn);
    LeastAscends(db.shop.menu, txn, item, db.shop.menu[item]);
    StepKeepsInv(db, t, d.txns[t], db.orders);
    SameCommitted(db, d, t);
  }

  /** The rows a scan has seen are the committed ones, so its verdict is the atomic one. */
  lemma ScanIsCurrent(db: Database, t: nat)
    requires Inv(db) && t < |db.txns| && db.txns[t].call.Decide? && Remaining(db, t) == {}
    requires |db.txns[t].Lines()| > 0
    ensures V.Judge(db.txns[t].seen, db.txns[t].Lines()) == V.Judge(Committed(db), db.txns[t].Lines())
  {
    hide V.Judge, V.ValidCommand;
    var txn := db.txns[t];
    var lines := txn.Lines();
    AllLocked(db.shop.menu, txn);
    forall i | 0 <= i < |lines|
      ensures lines[i].item in txn.seen ==> txn.seen[lines[i].item] == CommittedRow(db, lines[i].item)
    {
      if lines[i].item in txn.seen {
        HeldRow(db, t, lines[i].item);
      }
    }
    SameVerdict(txn.seen, Committed(db), lines);
  }

  lemma AllLocked(menu: V.Menu, txn: Txn)
    requires txn.call.Decide? && LocksAscend(menu, txn) && Wanted(menu, txn) - txn.seen.Keys == {}
    ensures forall i :: 0 <= i < |txn.Lines()| ==> (txn.Lines()[i].item in txn.seen <==> txn.Lines()[i].item in menu)
    ensures txn.seen.Keys == Wanted(menu, txn)
  {
    var wanted := Wanted(menu, txn);
    forall x | x in wanted ensures x in txn.seen {
      assert x !in wanted - txn.seen.Keys;
    }
    forall i | 0 <= i < |txn.Lines()| && txn.Lines()[i].item in menu ensures txn.Lines()[i].item in txn.seen {
      assert txn.Lines()[i].item in wanted;
    }
  }

  lemma Deciding(db: Database, t: nat, item: Id)
    requires Inv(db) && CanAdvance(db, t, item) && db.txns[t].phase.Scanning? && Remaining(db, t) == {}
    ensures WellFormed(db, db.txns[t]) && Inv(Advance(db, t, item)) && Refines(db, Advance(db, t, item), t)
  {
    hide Inv, V.Judge, V.ValidLine, UniqueItems, V.Reserve, Committed, Remaining;
    Facts(db, t);
    ScanIsCurrent(db, t);
    match V.Judge(db.txns[t].seen, db.txns[t].Lines()) {
      case Changed => RefusalKeepsInv(db, t, MenuChanged, []);
      case Overflow => Ends(db, t, db.orders, Decided(Rollback(V.AmountOverflow)));
      case Short(items) => RefusalKeepsInv(db, t, ItemsUnavailable, items);
      case Served(_, _) => BeginsReserving(db, t);
    }
  }

  /** A stored refusal, from any point before the first reservation. */
  lemma RefusalKeepsInv(db: Database, t: nat, reason: RejectReason, unavailable: seq<Id>)
    requires Inv(db) && t < |db.txns| && db.txns[t].HoldsAdvisory() && !db.txns[t].phase.Reserving?
    requires db.txns[t].call.command.order !in db.orders
    ensures var d := Refuse(db, t, reason, unavailable); Inv(d) && Visible(d) == Visible(db)
  {
    hide Inv, Committed;
    var d := Refuse(db, t, reason, unavailable);
    assert SoundLines([]);
    Ends(db, t, d.orders, d.txns[t].phase.reply);
  }

  lemma BeginsReserving(db: Database, t: nat)
    requires Inv(db) && t < |db.txns| && db.txns[t].phase.Scanning? && Remaining(db, t) == {}
    requires db.txns[t].call.Decide? && V.Judge(db.txns[t].seen, db.txns[t].Lines()).Served?
    ensures var d := With(db, t, db.txns[t].(phase := Reserving(0))); Inv(d) && Committed(d) == Committed(db)
  {
    Facts(db, t);
    var txn := db.txns[t].(phase := Reserving(0));
    StartsReserving(db.shop.menu, db.txns[t]);
    hide V.Judge, V.ValidCommand, RowsMatch, LocksAscend, SoundLines, Written;
    StepKeepsInv(db, t, txn, db.orders);
    SameCommitted(db, With(db, t, txn), t);
  }

  lemma StartsReserving(menu: V.Menu, txn: Txn)
    requires txn.call.Decide? && txn.phase.Scanning? && LocksAscend(menu, txn) && RowsMatch(menu, txn)
    requires Wanted(menu, txn) - txn.seen.Keys == {}
    ensures var next := txn.(phase := Reserving(0)); LocksAscend(menu, next) && RowsMatch(menu, next)
  {
    AllLocked(menu, txn);
    var next := txn.(phase := Reserving(0));
    assert Wanted(menu, next) == Wanted(menu, txn);
    assert next.Lines()[..0] == [];
  }

  lemma TakesFromItsRows(menu: V.Menu, txn: Txn)
    requires txn.call.Decide? && txn.phase.Reserving? && Reserved(txn) < |txn.Lines()|
    requires LocksAscend(menu, txn) && RowsMatch(menu, txn)
    ensures var after := V.Take(menu, txn.Lines()[Reserved(txn)]);
      && after.Keys == menu.Keys
      && (forall i :: i in menu ==> (after[i].stock.Some? <==> menu[i].stock.Some?))
      && (forall i :: i in menu && i !in txn.seen ==> after[i] == menu[i])
      && RowsMatch(after, txn.(phase := Reserving(Reserved(txn) + 1)))
      && LocksAscend(after, txn.(phase := Reserving(Reserved(txn) + 1)))
  {
    var k, lines := Reserved(txn), txn.Lines();
    var next := txn.(phase := Reserving(k + 1));
    assert lines[..k + 1][..k] == lines[..k];
    assert lines[k].item in menu ==> lines[k].item in Needed(menu, lines);
    SameWants(menu, V.Take(menu, lines[k]), txn);
    assert Wanted(V.Take(menu, lines[k]), next) == Wanted(V.Take(menu, lines[k]), txn);
    hide Wanted, Needed;
  }

  lemma ReservingOne(db: Database, t: nat, item: Id)
    requires Inv(db) && CanAdvance(db, t, item)
    requires db.txns[t].phase.Reserving? && db.txns[t].phase.next < |db.txns[t].Lines()|
    ensures WellFormed(db, db.txns[t]) && Inv(Advance(db, t, item)) && Refines(db, Advance(db, t, item), t)
  {
    hide Inv, V.Judge, V.ValidCommand, SoundLines, V.Reserve, RowsMatch, LocksAscend, Wanted, Needed;
    Facts(db, t);
    var txn, d := db.txns[t], Advance(db, t, item);
    NothingClashes(db, t, d.txns[t]);
    TakesFromItsRows(db.shop.menu, txn);
    hide V.Take, Written;
    WriteKeepsInv(db, t, d.shop.menu, d.txns[t]);
    SameCommitted(db, d, t);
  }

  lemma {:induction false} ReserveByRow(menu: V.Menu, other: V.Menu, lines: seq<Line>, i: Id)
    requires i in menu && i in other && menu[i] == other[i]
    ensures i in V.Reserve(menu, lines) && i in V.Reserve(other, lines) &&
         V.Reserve(menu, lines)[i] == V.Reserve(other, lines)[i]
  {
    if lines != [] {
      ReserveByRow(menu, other, lines[..|lines| - 1], i);
    }
  }

  lemma {:induction false} ReserveSkips(menu: V.Menu, lines: seq<Line>, i: Id)
    requires i in menu && forall k :: 0 <= k < |lines| ==> lines[k].item != i
    ensures i in V.Reserve(menu, lines) && V.Reserve(menu, lines)[i] == menu[i]
  {
    if lines != [] {
      ReserveSkips(menu, lines[..|lines| - 1], i);
    }
  }

  /** The commit of a transaction makes the rows it has written the committed ones. */
  lemma CommitShowsWritten(db: Database, d: Database, t: nat, i: Id)
    requires Inv(db) && Inv(d) && t < |db.txns| == |d.txns| && d.txns == db.txns[t := d.txns[t]]
    requires d.txns[t].seen == map[] && d.shop.menu == db.shop.menu && i in db.shop.menu
    ensures if i in db.txns[t].seen then i in Written(db.txns[t]) && CommittedRow(d, i) == Written(db.txns[t])[i]
      else CommittedRow(d, i) == CommittedRow(db, i)
  {
    HeldOnce(db, i);
    if i in db.txns[t].seen {
      assert Holder(db, t, i) && RowsMatch(db.shop.menu, db.txns[t]);
      forall u: nat ensures !Holder(d, u, i) {
        assert u != t && u < |d.txns| ==> !Holder(db, u, i);
      }
    } else {
      SameRow(db, d, t, i);
    }
  }

  lemma ReserveCommits(db: Database, d: Database, t: nat)
    requires Inv(db) && Inv(d) && t < |db.txns| == |d.txns| && d.txns == db.txns[t := d.txns[t]]
    requires d.txns[t].seen == map[] && d.shop.menu == db.shop.menu
    requires db.txns[t].call.Decide? && db.txns[t].phase == Reserving(|db.txns[t].Lines()|)
    ensures Committed(d) == V.Reserve(Committed(db), db.txns[t].Lines())
  {
    hide Inv, CommittedRow, Wanted, V.Judge, V.Reserve, Proceeds, RowsMatch;
    var lines := db.txns[t].Lines();
    Stock.ReserveTakesDemand(Committed(db), lines);
    forall i | i in db.shop.menu ensures CommittedRow(d, i) == V.Reserve(Committed(db), lines)[i] {
      ReservedRowCommits(db, d, t, i);
    }
  }

  lemma ReservedRowCommits(db: Database, d: Database, t: nat, i: Id)
    requires Inv(db) && Inv(d) && t < |db.txns| == |d.txns| && d.txns == db.txns[t := d.txns[t]]
    requires d.txns[t].seen == map[] && d.shop.menu == db.shop.menu && i in db.shop.menu
    requires db.txns[t].call.Decide? && db.txns[t].phase == Reserving(|db.txns[t].Lines()|)
    ensures i in V.Reserve(Committed(db), db.txns[t].Lines())
    ensures CommittedRow(d, i) == V.Reserve(Committed(db), db.txns[t].Lines())[i]
  {
    hide Inv, CommittedRow, Wanted, V.Judge, V.Reserve;
    var txn := db.txns[t];
    var lines := txn.Lines();
    Facts(db, t);
    assert lines[..|lines|] == lines;
    CommitShowsWritten(db, d, t, i);
    if i in txn.seen {
      HeldRow(db, t, i);
      ReserveByRow(txn.seen, Committed(db), lines, i);
    } else {
      NotWanted(db.shop.menu, txn, i);
      ReserveSkips(Committed(db), lines, i);
    }
  }

  lemma NotWanted(menu: V.Menu, txn: Txn, i: Id)
    requires txn.call.Decide? && i in menu && i !in Wanted(menu, txn)
    ensures forall k :: 0 <= k < |txn.Lines()| ==> txn.Lines()[k].item != i
  {
  }

  lemma Committing(db: Database, t: nat, item: Id)
    requires Inv(db) && CanAdvance(db, t, item)
    requires db.txns[t].phase == Reserving(|db.txns[t].Lines()|)
    ensures WellFormed(db, db.txns[t]) && Inv(Advance(db, t, item)) && Refines(db, Advance(db, t, item), t)
  {
    hide Inv, V.Judge, V.ValidLine, UniqueItems, LocksAscend, RowsMatch, V.Reserve, Committed;
    Facts(db, t);
    CommitKeepsInv(db, t, item);
    NothingRemains(db.shop.menu, db.txns[t]);
    ScanIsCurrent(db, t);
    ReserveCommits(db, Advance(db, t, item), t);
  }

  lemma NothingRemains(menu: V.Menu, txn: Txn)
    requires LocksAscend(menu, txn) && txn.phase.Reserving?
    ensures Wanted(menu, txn) - txn.seen.Keys == {}
  {
  }

  lemma CommitKeepsInv(db: Database, t: nat, item: Id)
    requires Inv(db) && CanAdvance(db, t, item) && db.txns[t].phase == Reserving(|db.txns[t].Lines()|)
    ensures WellFormed(db, db.txns[t]) && Inv(Advance(db, t, item))
  {
    hide Inv, V.Judge, V.ValidCommand, RowsMatch, SoundLines, LocksAscend;
    Facts(db, t);
    CommandLinesAreSound(db.txns[t].call.command);
    var d := Advance(db, t, item);
    LocksNothing(db.shop.menu, d.txns[t]);
    NothingClashes(db, t, d.txns[t]);
    StepKeepsInv(db, t, d.txns[t], d.orders);
  }

  lemma NothingClashes(db: Database, t: nat, txn: Txn)
    requires Inv(db) && t < |db.txns| && txn.call == db.txns[t].call && txn.seen.Keys <= db.txns[t].seen.Keys
    requires txn.HoldsAdvisory() ==> db.txns[t].HoldsAdvisory()
    requires txn.HoldsOrderRow() ==> db.txns[t].HoldsOrderRow()
    ensures forall u :: 0 <= u < |db.txns| && u != t ==> txn.seen.Keys !! db.txns[u].seen.Keys
    ensures forall u :: 0 <= u < |db.txns| && u != t && db.txns[u].call.Order() == txn.call.Order() ==>
      && !(txn.HoldsAdvisory() && db.txns[u].HoldsAdvisory())
      && !(txn.HoldsOrderRow() && db.txns[u].HoldsOrderRow())
  {
    hide Proceeds, LocksAscend, RowsMatch, SoundLines;
  }

  lemma CommandLinesAreSound(command: OrderCommand)
    requires V.ValidCommand(command)
    ensures SoundLines(command.lines)
  {
    forall i | 0 <= i < |command.lines| ensures command.lines[i].quantity > 0 {
      assert V.ValidLine(command.lines[i]);
    }
  }

  // ---------- cancellations and staff moves ----------

  /** The row of an order stays locked from the first statement that reads it. */
  lemma OrderRowEnds(db: Database, t: nat, v: V.Order, reply: Reply)
    requires Inv(db) && t < |db.txns| && db.txns[t].HoldsOrderRow() && !db.txns[t].phase.Releasing?
    requires db.txns[t].call.order in db.orders && v.lines == db.orders[db.txns[t].call.order].lines
    ensures var d := Finish(Store(db, db.txns[t].call.order, v), t, reply); Inv(d) && Visible(d) == Visible(db)
  {
    SoundOrder(db, db.txns[t].call.order);
    hide Inv, Committed, SoundLines;
    Ends(db, t, Store(db, db.txns[t].call.order, v).orders, reply);
  }

  lemma SoundOrder(db: Database, o: Id)
    requires Inv(db) && o in db.orders
    ensures SoundLines(db.orders[o].lines)
  {
  }

  lemma Moving(db: Database, t: nat, item: Id)
    requires Inv(db) && CanAdvance(db, t, item) && db.txns[t].phase.Entered? && db.txns[t].call.Move?
    ensures WellFormed(db, db.txns[t]) && Inv(Advance(db, t, item)) && Refines(db, Advance(db, t, item), t)
  {
    hide Inv, Committed;
    Facts(db, t);
    var call := db.txns[t].call;
    var moved := V.Transition(db.orders[call.order], call.move, call.eventId, call.at);
    if moved.Commit? {
      OrderRowEnds(db, t, moved.state, Moved(moved));
    } else {
      Ends(db, t, db.orders, Moved(moved));
    }
  }

  lemma Answering(db: Database, t: nat, item: Id)
    requires Inv(db) && CanAdvance(db, t, item) && db.txns[t].phase.Entered? && db.txns[t].call.Cancel?
    ensures WellFormed(db, db.txns[t]) && Inv(Advance(db, t, item)) && Refines(db, Advance(db, t, item), t)
  {
    hide Inv, Committed, V.Release, V.ValidCommand, V.Judge;
    Facts(db, t);
    var v := db.orders[db.txns[t].call.order];
    if v.cancelDecision.Some? {
      Ends(db, t, db.orders, Answered(Commit(v.cancelDecision.value)));
    } else if v.status != Accepted {
      var refused := CancelRefused(v.status);
      OrderRowEnds(db, t, v.(cancelDecision := Some(refused)), Answered(Commit(refused)));
    } else {
      hide LocksAscend, RowsMatch;
      NothingWritten(db, t, db.txns[t].(phase := Releasing(v.lines)), db.orders);
    }
  }

  lemma GivenRowsMatch(menu: V.Menu, txn: Txn, item: Id)
    requires txn.call.Cancel? && txn.phase.Releasing? && RowsMatch(menu, txn) && item in menu && item !in txn.seen
    ensures RowsMatch(Given(menu, txn.phase.lines, item), Locked(menu, txn, item))
  {
    hide V.Joined;
    var next := Locked(menu, txn, item);
    assert Written(next) == V.Release(next.seen, txn.phase.lines);
    forall i | i in txn.seen ensures i in Written(next) && menu[i] == Written(next)[i] {
      assert i in Written(txn) && menu[i] == Written(txn)[i];
    }
  }

  lemma GivenLocksAscend(menu: V.Menu, txn: Txn, item: Id)
    requires txn.call.Cancel? && txn.phase.Releasing? && LocksAscend(menu, txn)
    requires item in Wanted(menu, txn)
    ensures item in menu && menu[item].stock.Some?
    ensures var after := Given(menu, txn.phase.lines, item);
      && after.Keys == menu.Keys
      && (forall i :: i in menu ==> (after[i].stock.Some? <==> menu[i].stock.Some?))
      && (forall i :: i in menu && i != item ==> after[i] == menu[i])
    ensures LocksAscend(Given(menu, txn.phase.lines, item), Locked(menu, txn, item))
  {
    hide V.Joined;
    var next := Locked(menu, txn, item);
    SameWants(menu, Given(menu, txn.phase.lines, item), next);
    assert Wanted(menu, next) == Wanted(menu, txn);
  }

  lemma ReleasingOne(db: Database, t: nat, item: Id)
    requires Inv(db) && CanAdvance(db, t, item) && db.txns[t].phase.Releasing? && Remaining(db, t) != {}
    ensures WellFormed(db, db.txns[t]) && Inv(Advance(db, t, item)) && Refines(db, Advance(db, t, item), t)
  {
    hide Inv, V.Judge, V.ValidCommand, SoundLines, V.Joined;
    Facts(db, t);
    var txn, d := db.txns[t], Advance(db, t, item);
    GivenLocksAscend(db.shop.menu, txn, item);
    GivenRowsMatch(db.shop.menu, txn, item);
    hide RowsMatch, LocksAscend, Written, Given, Wanted;
    NothingClashes(db, t, txn);
    WriteKeepsInv(db, t, d.shop.menu, d.txns[t]);
    SameCommitted(db, d, t);
  }

  /** Whether a row keeps a finite stock is the same in every version of it. */
  lemma FiniteRow(db: Database, i: Id)
    requires Inv(db) && i in db.shop.menu
    ensures CommittedRow(db, i).stock.Some? <==> db.shop.menu[i].stock.Some?
  {
    hide Inv, V.Judge, V.ValidCommand, LocksAscend;
    if t: nat :| Holder(db, t, i) {
      HeldRow(db, t, i);
      Facts(db, t);
      Stock.ReserveTakesDemand(db.txns[t].seen, db.txns[t].Lines()[..Reserved(db.txns[t])]);
    }
  }

  lemma {:induction false} NotJoined(lines: seq<Line>, i: Id)
    requires forall k :: 0 <= k < |lines| ==> lines[k].item != i
    ensures V.Joined(lines, i) == 0
  {
    if lines != [] {
      NotJoined(lines[1..], i);
    }
  }

  lemma ReleaseCommits(db: Database, d: Database, t: nat)
    requires Inv(db) && Inv(d) && t < |db.txns| == |d.txns| && d.txns == db.txns[t := d.txns[t]]
    requires d.txns[t].seen == map[] && d.shop.menu == db.shop.menu
    requires db.txns[t].call.Cancel? && db.txns[t].phase.Releasing? && Remaining(db, t) == {}
    ensures Committed(d) == V.Release(Committed(db), db.txns[t].phase.lines)
  {
    hide Inv, CommittedRow, Wanted, V.Judge, Proceeds, RowsMatch, V.Joined;
    var lines := db.txns[t].phase.lines;
    forall i | i in db.shop.menu ensures CommittedRow(d, i) == V.Release(Committed(db), lines)[i] {
      ReleasedRowCommits(db, d, t, i);
    }
  }

  lemma ReleasedRowCommits(db: Database, d: Database, t: nat, i: Id)
    requires Inv(db) && Inv(d) && t < |db.txns| == |d.txns| && d.txns == db.txns[t := d.txns[t]]
    requires d.txns[t].seen == map[] && d.shop.menu == db.shop.menu && i in db.shop.menu
    requires db.txns[t].call.Cancel? && db.txns[t].phase.Releasing? && Remaining(db, t) == {}
    ensures CommittedRow(d, i) == V.Release(Committed(db), db.txns[t].phase.lines)[i]
  {
    hide Inv, CommittedRow, V.Judge, V.Joined, V.ValidCommand;
    var txn := db.txns[t];
    Facts(db, t);
    CommitShowsWritten(db, d, t, i);
    FiniteRow(db, i);
    if i in txn.seen {
      HeldRow(db, t, i);
    } else if db.shop.menu[i].stock.Some? {
      assert i !in Remaining(db, t);
      assert i !in Wanted(db.shop.menu, txn);
      NotJoined(txn.phase.lines, i);
    }
  }

  lemma Released(db: Database, t: nat, item: Id)
    requires Inv(db) && CanAdvance(db, t, item) && db.txns[t].phase.Releasing? && Remaining(db, t) == {}
    ensures WellFormed(db, db.txns[t]) && Inv(Advance(db, t, item)) && Refines(db, Advance(db, t, item), t)
  {
    hide Inv, V.Judge, V.ValidCommand, V.Release, Committed, RowsMatch, LocksAscend, Remaining;
    Facts(db, t);
    ReleaseKeepsInv(db, t, item);
    ReleaseCommits(db, Advance(db, t, item), t);
  }

  lemma ReleaseKeepsInv(db: Database, t: nat, item: Id)
    requires Inv(db) && CanAdvance(db, t, item) && db.txns[t].phase.Releasing? && Remaining(db, t) == {}
    ensures WellFormed(db, db.txns[t]) && Inv(Advance(db, t, item))
  {
    hide Inv, V.Judge, V.ValidCommand, RowsMatch, SoundLines, LocksAscend, Remaining;
    Facts(db, t);
    SoundOrder(db, db.txns[t].call.order);
    var d := Advance(db, t, item);
    LocksNothing(db.shop.menu, d.txns[t]);
    NothingClashes(db, t, d.txns[t]);
    StepKeepsInv(db, t, d.txns[t], d.orders);
  }

  // ---------- the main result, and what starts or fails ----------

  /** Every statement that can run keeps the invariant and either changes nothing that is committed or
      completes its transaction as one atomic call. */
  lemma AdvanceRefines(db: Database, t: nat, item: Id)
    requires Inv(db) && CanAdvance(db, t, item)
    ensures WellFormed(db, db.txns[t]) && Inv(Advance(db, t, item)) && Refines(db, Advance(db, t, item), t)
  {
    Stopped(db, t, item);
    Facts(db, t);
    var txn := db.txns[t];
    hide Inv, V.Judge, V.ValidCommand, Refines, CanAdvance, Advance, LocksAscend, RowsMatch, Remaining;
    match txn.phase {
      case Arrived => Starts(db, t, item);
      case Entered =>
        match txn.call {
          case Decide(_, _) => Checking(db, t, item);
          case Cancel(_, _, _) => Answering(db, t, item);
          case Move(_, _, _, _) => Moving(db, t, item);
        }
      case Scanning => if Remaining(db, t) != {} { LockingOne(db, t, item); } else { Deciding(db, t, item); }
      case Reserving(k) => if k < |txn.Lines()| { ReservingOne(db, t, item); } else { Committing(db, t, item); }
      case Releasing(_) => if Remaining(db, t) != {} { ReleasingOne(db, t, item); } else { Released(db, t, item); }
      case _ => assert false;
    }
  }

  lemma Stopped(db: Database, t: nat, item: Id)
    requires CanAdvance(db, t, item)
    ensures t < |db.txns| && !db.txns[t].Finished()
  {
  }

  lemma AbortRefines(db: Database, t: nat)
    requires Inv(db) && t < |db.txns| && !db.txns[t].Finished()
    ensures Inv(Abort(db, t)) && Visible(Abort(db, t)) == Visible(db) && Abort(db, t).orders == db.orders
  {
    hide Inv, V.Judge, V.ValidCommand;
    Facts(db, t);
    var d := Abort(db, t);
    SameFiniteness(db.shop.menu, db.txns[t]);
    LocksNothing(d.shop.menu, d.txns[t]);
    hide LocksAscend, RowsMatch;
    WriteKeepsInv(db, t, d.shop.menu, d.txns[t]);
    SameCommitted(db, d, t);
  }

  lemma SameFiniteness(menu: V.Menu, txn: Txn)
    requires Reserved(txn) <= |txn.Lines()| && RowsMatch(menu, txn)
    ensures forall i :: i in txn.seen ==> i in menu && (txn.seen[i].stock.Some? <==> menu[i].stock.Some?)
  {
    Stock.ReserveTakesDemand(txn.seen, txn.Lines()[..Reserved(txn)]);
  }

  lemma ArriveRefines(db: Database, call: Call)
    requires Inv(db) && (call.Decide? ==> V.ValidCommand(call.command))
    ensures Inv(Arrive(db, call)) && Visible(Arrive(db, call)) == Visible(db) && Arrive(db, call).orders == db.orders
  {
    var d := Arrive(db, call);
    ArriveKeepsInv(db, call);
    hide Inv, CommittedRow;
    forall i | i in db.shop.menu ensures CommittedRow(d, i) == CommittedRow(db, i) {
      ArrivalReadsSame(db, d, i);
    }
  }

  lemma ArriveKeepsInv(db: Database, call: Call)
    requires Inv(db) && (call.Decide? ==> V.ValidCommand(call.command))
    ensures Inv(Arrive(db, call))
  {
    var d := Arrive(db, call);
    var n := |db.txns|;
    LocksNothing(d.shop.menu, d.txns[n]);
    assert Proceeds(d, d.txns[n]) by { hide V.ValidCommand; }
    forall u | 0 <= u < n ensures Proceeds(d, d.txns[u]) {
      assert d.txns[u] == db.txns[u];
      ProceedsAlike(db, d, db.txns[u]);
    }
    hide Proceeds, LocksAscend, RowsMatch, SoundLines;
  }

  lemma ProceedsAlike(db: Database, d: Database, txn: Txn)
    requires d.shop == db.shop && d.orders == db.orders
    ensures Proceeds(d, txn) <==> Proceeds(db, txn)
  {
    hide V.ValidCommand, V.Judge;
  }

  lemma ArrivalReadsSame(db: Database, d: Database, i: Id)
    requires Inv(db) && Inv(d) && d.shop == db.shop && i in db.shop.menu
    requires |d.txns| == |db.txns| + 1 && d.txns[..|db.txns|] == db.txns && d.txns[|db.txns|].seen == map[]
    ensures CommittedRow(d, i) == CommittedRow(db, i)
  {
    hide Inv;
    assert forall u: nat :: Holder(d, u, i) <==> Holder(db, u, i);
    if u: nat :| Holder(db, u, i) {
      HeldRow(db, u, i);
      HeldRow(d, u, i);
    }
  }
}
