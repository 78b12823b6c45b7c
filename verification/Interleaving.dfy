/** Runs of any number of interleaved venue transactions: they commit what some serial run commits, never oversell
    an item, and decisions alone never deadlock. */
module Interleaving {
  import opened Types
  import opened Locking
  import V = Venue
  import Stock

  datatype Op = Begins(call: Call) | Runs(txn: nat, item: Id) | Fails(txn: nat)

  ghost predicate Can(db: Database, op: Op) {
    match op {
      case Begins(call) => call.Decide? ==> V.ValidCommand(call.command)
      case Runs(t, item) => CanAdvance(db, t, item) && WellFormed(db, db.txns[t])
      case Fails(t) => t < |db.txns| && !db.txns[t].Finished()
    }
  }

  ghost function Do(db: Database, op: Op): Database
    requires Can(db, op)
  {
    match op {
      case Begins(call) => Arrive(db, call)
      case Runs(t, item) => Advance(db, t, item)
      case Fails(t) => Abort(db, t)
    }
  }

  ghost predicate Run(db: Database, ops: seq<Op>, d: Database)
    decreases |ops|
  {
    if ops == [] then db == d else Can(db, ops[0]) && Run(Do(db, ops[0]), ops[1..], d)
  }

  ghost predicate Completes(db: Database, op: Op)
    requires Can(db, op)
  {
    op.Runs? && Do(db, op).txns[op.txn].phase.Done?
  }

  /** The calls that complete during a run with their replies, in the order of their last statements. */
  ghost function Completed(db: Database, ops: seq<Op>): seq<(Call, Reply)>
    decreases |ops|
  {
    if ops == [] || !Can(db, ops[0]) then []
    else
      (if Completes(db, ops[0])
       then [(db.txns[ops[0].txn].call, Do(db, ops[0]).txns[ops[0].txn].phase.reply)] else [])
      + Completed(Do(db, ops[0]), ops[1..])
  }

  /** The calls performed without interruption, one after another, give these replies and this result. */
  ghost predicate Serial(shop: V.Shop, orders: map<Id, V.Order>, calls: seq<(Call, Reply)>,
                         after: V.Shop, result: map<Id, V.Order>)
    decreases |calls|
  {
    if calls == [] then shop == after && orders == result
    else
      var outcome := Perform(shop, orders, calls[0].0);
      outcome.reply == calls[0].1 && Serial(outcome.shop, outcome.orders, calls[1..], after, result)
  }

  lemma OpRefines(db: Database, op: Op)
    requires Inv(db) && Can(db, op)
    ensures Inv(Do(db, op))
    ensures if Completes(db, op)
      then Perform(Visible(db), db.orders, db.txns[op.txn].call) ==
             Outcome(Visible(Do(db, op)), Do(db, op).orders, Do(db, op).txns[op.txn].phase.reply)
      else Visible(Do(db, op)) == Visible(db) && Do(db, op).orders == db.orders
  {
    hide Inv, Committed, CanAdvance, Advance, Perform;
    match op {
      case Begins(call) => ArriveRefines(db, call);
      case Fails(t) => AbortRefines(db, t);
      case Runs(t, item) => AdvanceRefines(db, t, item);
    }
  }

  /** Serializability: what an interleaved run commits and answers is what its completed calls commit and answer
      when they run one after another, in the order of their last statements. */
  lemma {:induction false} RunIsSerial(db: Database, ops: seq<Op>, d: Database)
    requires Inv(db) && Run(db, ops, d)
    ensures Inv(d)
    ensures Serial(Visible(db), db.orders, Completed(db, ops), Visible(d), d.orders)
    decreases |ops|
  {
    hide Inv, Can, Do, Completes, Visible, Perform;
    if ops != [] {
      OpRefines(db, ops[0]);
      RunIsSerial(Do(db, ops[0]), ops[1..], d);
      CompletedFirst(db, ops);
    }
  }

  lemma CompletedFirst(db: Database, ops: seq<Op>)
    requires ops != [] && Can(db, ops[0])
    ensures var rest := Completed(Do(db, ops[0]), ops[1..]);
      if Completes(db, ops[0]) then
        && Completed(db, ops) != [] && Completed(db, ops)[1..] == rest
        && Completed(db, ops)[0] == (db.txns[ops[0].txn].call, Do(db, ops[0]).txns[ops[0].txn].phase.reply)
      else Completed(db, ops) == rest
  {
    hide Do, Can;
  }

  /** A database at rest, with the sound orders that its own transactions leave behind. */
  ghost predicate AtRest(db: Database) {
    db.txns == [] && forall o :: o in db.orders ==> SoundLines(db.orders[o].lines)
  }

  lemma AtRestIsSound(db: Database)
    requires AtRest(db)
    ensures Inv(db) && Committed(db) == db.shop.menu
  {
  }

  // ---------- nothing is oversold ----------

  function SoldBy(item: Id): V.Order -> int {
    v => Stock.HeldBy(Some(v), item)
  }

  /** What all orders hold of an item. */
  ghost function Sold(orders: map<Id, V.Order>, item: Id): int {
    Stock.Sum(orders, SoldBy(item))
  }

  ghost predicate SoundOrders(orders: map<Id, V.Order>) {
    forall o :: o in orders ==> SoundLines(orders[o].lines)
  }

  /** A result that keeps every quantity: what leaves the shelf is held by an order. */
  ghost predicate Balances(shop: V.Shop, orders: map<Id, V.Order>, after: V.Shop, result: map<Id, V.Order>, item: Id)
    requires Stock.Finite(shop.menu, item)
  {
    && Stock.NotNegative(after.menu) && SoundOrders(result) && Stock.Finite(after.menu, item)
    && after.menu[item].stock.value + Sold(result, item) == shop.menu[item].stock.value + Sold(orders, item)
  }

  lemma RecordedSells(orders: map<Id, V.Order>, order: Id, v: V.Order, item: Id)
    requires SoundOrders(orders) && SoundLines(v.lines)
    ensures SoundOrders(orders[order := v])
    ensures Sold(orders[order := v], item) ==
      Sold(orders, item) - Stock.HeldBy(Lookup(orders, order), item) + Stock.HeldBy(Some(v), item)
  {
    Stock.SumUpdated(orders, order, v, SoldBy(item));
  }

  lemma DecideBalances(shop: V.Shop, orders: map<Id, V.Order>, command: OrderCommand, newId: Id, item: Id)
    requires Stock.NotNegative(shop.menu) && Stock.Finite(shop.menu, item) && SoundOrders(orders)
    ensures var outcome := Perform(shop, orders, Decide(command, newId));
      Balances(shop, orders, outcome.shop, outcome.orders, item)
  {
    var existing := Lookup(orders, command.order);
    var answer := V.Serve(shop, existing, command, newId);
    DecidedLinesAreSound(shop, existing, command, newId);
    hide V.Serve, Sold, SoundLines, Stock.NotNegative;
    Stock.ServeConserves(shop, existing, command, newId);
    if answer.order.Some? {
      RecordedSells(orders, command.order, answer.order.value, item);
    }
  }

  lemma DecidedLinesAreSound(shop: V.Shop, existing: Option<V.Order>, command: OrderCommand, newId: Id)
    requires existing.Some? ==> SoundLines(existing.value.lines)
    ensures var order := V.Serve(shop, existing, command, newId).order;
      && (order.Some? ==> SoundLines(order.value.lines))
      && (order.None? ==> existing.None?)
  {
    assert SoundLines([]);
    if V.ValidCommand(command) {
      CommandLinesAreSound(command);
    }
    hide SoundLines, V.Judge, V.Reserve, V.ValidCommand;
  }

  lemma CancelBalances(shop: V.Shop, orders: map<Id, V.Order>, order: Id, eventId: Id, at: int, item: Id)
    requires Stock.NotNegative(shop.menu) && Stock.Finite(shop.menu, item) && SoundOrders(orders)
    ensures var outcome := Perform(shop, orders, Cancel(order, eventId, at));
      Balances(shop, orders, outcome.shop, outcome.orders, item)
  {
    var existing := Lookup(orders, order);
    var answer := V.Cancel(shop.menu, existing, eventId, at);
    assert answer.order.Some? <==> existing.Some?;
    assert existing.Some? ==> answer.order.value.lines == existing.value.lines;
    Stock.CancelReleases(shop.menu, existing, eventId, at);
    hide V.Cancel, Sold, Stock.NotNegative;
    if existing.Some? {
      RecordedSells(orders, order, answer.order.value, item);
    }
  }

  lemma MoveBalances(shop: V.Shop, orders: map<Id, V.Order>, order: Id, move: V.Move, eventId: Id, at: int, item: Id)
    requires Stock.NotNegative(shop.menu) && Stock.Finite(shop.menu, item) && SoundOrders(orders)
    ensures var outcome := Perform(shop, orders, Move(order, move, eventId, at));
      Balances(shop, orders, outcome.shop, outcome.orders, item)
  {
    hide Sold, Stock.NotNegative, Stock.Demand;
    if order in orders {
      var moved := V.Transition(orders[order], move, eventId, at);
      if moved.Commit? {
        assert Stock.HeldBy(Some(moved.state), item) == Stock.HeldBy(Some(orders[order]), item);
        RecordedSells(orders, order, moved.state, item);
      }
    }
  }

  lemma PerformBalances(shop: V.Shop, orders: map<Id, V.Order>, call: Call, item: Id)
    requires Stock.NotNegative(shop.menu) && Stock.Finite(shop.menu, item) && SoundOrders(orders)
    ensures var outcome := Perform(shop, orders, call); Balances(shop, orders, outcome.shop, outcome.orders, item)
  {
    hide Perform, Balances, Stock.NotNegative, SoundOrders;
    match call {
      case Decide(command, newId) => DecideBalances(shop, orders, command, newId, item);
      case Cancel(order, eventId, at) => CancelBalances(shop, orders, order, eventId, at, item);
      case Move(order, move, eventId, at) => MoveBalances(shop, orders, order, move, eventId, at, item);
    }
  }

  lemma {:induction false} SerialBalances(shop: V.Shop, orders: map<Id, V.Order>, calls: seq<(Call, Reply)>,
                                          after: V.Shop, result: map<Id, V.Order>, item: Id)
    requires Stock.NotNegative(shop.menu) && Stock.Finite(shop.menu, item) && SoundOrders(orders)
    requires Serial(shop, orders, calls, after, result)
    ensures Balances(shop, orders, after, result, item)
    decreases |calls|
  {
    hide Perform, Stock.NotNegative, SoundOrders, Sold;
    if calls != [] {
      var outcome := Perform(shop, orders, calls[0].0);
      PerformBalances(shop, orders, calls[0].0, item);
      SerialBalances(outcome.shop, outcome.orders, calls[1..], after, result, item);
    }
  }

  /** Not even the uncommitted version of a row is ever negative. */
  lemma NewestRowsNotNegative(db: Database)
    requires Inv(db) && Stock.NotNegative(Committed(db))
    ensures Stock.NotNegative(db.shop.menu)
  {
    hide Inv;
    forall i | Stock.Finite(db.shop.menu, i) ensures db.shop.menu[i].stock.value >= 0 {
      if t: nat :| Holder(db, t, i) {
        RowNotNegative(db, t, i);
      } else {
        assert Committed(db)[i] == db.shop.menu[i];
      }
    }
  }

  lemma RowNotNegative(db: Database, t: nat, i: Id)
    requires Inv(db) && Holder(db, t, i) && Stock.NotNegative(Committed(db)) && Stock.Finite(db.shop.menu, i)
    ensures db.shop.menu[i].stock.value >= 0
  {
    hide Inv, V.Judge, V.ValidLine;
    Facts(db, t);
    SeenNotNegative(db, t);
    if db.txns[t].phase.Releasing? {
      SoundOrder(db, db.txns[t].call.order);
      Stock.JoinedNotNegative(db.txns[t].phase.lines, i);
    } else {
      ReservedNotNegative(db.txns[t]);
    }
  }

  lemma SeenNotNegative(db: Database, t: nat)
    requires Inv(db) && t < |db.txns| && Stock.NotNegative(Committed(db))
    ensures Stock.NotNegative(db.txns[t].seen)
  {
    hide Inv;
    forall j | Stock.Finite(db.txns[t].seen, j) ensures db.txns[t].seen[j].stock.value >= 0 {
      assert Holder(db, t, j);
      HeldRow(db, t, j);
      assert Committed(db)[j] == db.txns[t].seen[j];
    }
  }

  lemma ServedIsOffered(menu: V.Menu, lines: seq<Line>)
    requires |lines| > 0 && V.Judge(menu, lines).Served?
    ensures forall i :: 0 <= i < |lines| ==> V.Offered(menu, lines[i])
  {
    hide V.Offered, V.Shortages, V.OfferedLines, V.SeesMismatch;
    V.NoShortage(menu, lines);
  }

  lemma ReservedNotNegative(txn: Txn)
    requires Stock.NotNegative(txn.seen) && Reserved(txn) <= |txn.Lines()| && !txn.phase.Releasing?
    requires txn.phase.Reserving? ==>
      |txn.Lines()| > 0 && UniqueItems(txn.Lines()) && V.Judge(txn.seen, txn.Lines()).Served?
    ensures Stock.NotNegative(Written(txn))
  {
    hide V.Offered, V.Reserve, V.Judge, Stock.NotNegative;
    if txn.phase.Reserving? {
      ServedIsOffered(txn.seen, txn.Lines());
      Stock.OfferedStaysInStock(txn.seen, txn.Lines()[..Reserved(txn)]);
    }
  }

  /** However decisions, cancellations and moves interleave, what leaves the shelf is what orders hold, and neither
      the committed nor the newest version of a row is ever negative. */
  lemma NeverOversold(db: Database, ops: seq<Op>, d: Database, item: Id)
    requires AtRest(db) && Run(db, ops, d) && Stock.NotNegative(db.shop.menu) && Stock.Finite(db.shop.menu, item)
    ensures Stock.Finite(Committed(d), item) && Committed(d)[item].stock.value >= 0
    ensures Committed(d)[item].stock.value + Sold(d.orders, item) ==
      db.shop.menu[item].stock.value + Sold(db.orders, item)
    ensures Stock.NotNegative(d.shop.menu)
  {
    AtRestIsSound(db);
    hide Inv, Run, Committed, Serial, Sold;
    RunIsSerial(db, ops, d);
    SerialBalances(Visible(db), db.orders, Completed(db, ops), Visible(d), d.orders, item);
    NewestRowsNotNegative(d);
  }

  // ---------- deadlocks ----------

  function Above(menu: V.Menu, item: Id): set<Id> {
    set i | i in menu && i > item
  }

  /** Some row that the transaction waits for, if its next statement locks a row and no such row is free. */
  ghost predicate Waits(db: Database, t: nat, item: Id) {
    && t < |db.txns| && Remaining(db, t) != {} && item in Remaining(db, t) && !Free(db, item)
    && ((db.txns[t].phase.Scanning? && item == Least(Remaining(db, t))) || db.txns[t].phase.Releasing?)
  }

  lemma HolderWants(db: Database, t: nat, item: Id)
    requires Inv(db) && Waits(db, t, item)
    ensures exists u: nat :: Holder(db, u, item) && db.txns[u].HoldsRows() && item in db.shop.menu
  {
    hide V.Judge, V.ValidCommand;
    var u :| 0 <= u < |db.txns| && item in db.txns[u].seen;
    Facts(db, u);
    assert Holder(db, u, item);
  }

  /** The row that a transaction would ask for next, if it asks for one. */
  ghost function NextRow(db: Database, t: nat): Id
    requires t < |db.txns|
  {
    if Remaining(db, t) != {} then Least(Remaining(db, t)) else 0
  }

  lemma GoesOnOrWaits(db: Database, t: nat)
    requires t < |db.txns| && !db.txns[t].Finished() && !db.txns[t].phase.Arrived?
    ensures CanAdvance(db, t, NextRow(db, t)) || Waits(db, t, NextRow(db, t))
  {
    hide Remaining, Free;
  }

  /** A transaction that holds one row and waits for another waits for a row above. */
  lemma WaitsAbove(db: Database, u: nat, item: Id)
    requires Inv(db) && Holder(db, u, item) && Ascending(db.shop.menu, db.txns[u]) && Waits(db, u, NextRow(db, u))
    ensures NextRow(db, u) > item && NextRow(db, u) in db.shop.menu
  {
    var next := NextRow(db, u);
    assert next in Wanted(db.shop.menu, db.txns[u]) && next !in db.txns[u].seen;
  }

  /** Along a chain of waiting transactions the awaited row ids grow, so the chain ends. */
  lemma {:induction false} ChainEnds(db: Database, t: nat, item: Id)
    requires Inv(db) && Waits(db, t, item)
    requires forall u :: 0 <= u < |db.txns| ==> Ascending(db.shop.menu, db.txns[u])
    ensures exists u: nat, next: Id :: CanAdvance(db, u, next)
    decreases Above(db.shop.menu, item)
  {
    hide Inv, CanAdvance, Waits, Ascending, NextRow;
    HolderWants(db, t, item);
    var u: nat :| Holder(db, u, item) && db.txns[u].HoldsRows();
    var next := NextRow(db, u);
    GoesOnOrWaits(db, u);
    if !CanAdvance(db, u, next) {
      WaitsAbove(db, u, item);
      assert next in Above(db.shop.menu, item) && next !in Above(db.shop.menu, next);
      ChainEnds(db, u, next);
    }
  }

  lemma HoldersAreRunning(txn: Txn)
    requires txn.HoldsAdvisory() || txn.HoldsOrderRow()
    ensures !txn.phase.Arrived? && !txn.Finished()
  {
  }

  /** While nobody holds a row above one it still wants, some unfinished transaction can run its next statement. */
  lemma NoDeadlock(db: Database, t: nat)
    requires Inv(db) && t < |db.txns| && !db.txns[t].Finished()
    requires forall u :: 0 <= u < |db.txns| ==> Ascending(db.shop.menu, db.txns[u])
    ensures exists u: nat, item: Id :: CanAdvance(db, u, item)
    decreases if db.txns[t].phase.Arrived? then 1 else 0
  {
    hide Inv, Ascending, Remaining, Waits;
    if db.txns[t].phase.Arrived? && !CanAdvance(db, t, 0) {
      var u: nat :| u < |db.txns| && (db.txns[u].HoldsAdvisory() || db.txns[u].HoldsOrderRow());
      HoldersAreRunning(db.txns[u]);
      NoDeadlock(db, u);
    } else if !db.txns[t].phase.Arrived? {
      GoesOnOrWaits(db, t);
      if Waits(db, t, NextRow(db, t)) {
        ChainEnds(db, t, NextRow(db, t));
      }
    }
  }

  /** Decisions alone never deadlock: they lock in ascending order in every reachable state. */
  lemma DecisionsNeverDeadlock(db: Database, ops: seq<Op>, d: Database, t: nat)
    requires AtRest(db) && Run(db, ops, d) && t < |d.txns| && !d.txns[t].Finished()
    requires forall u :: 0 <= u < |d.txns| ==> !d.txns[u].call.Cancel?
    ensures exists u: nat, item: Id :: CanAdvance(d, u, item)
  {
    AtRestIsSound(db);
    RunIsSerial(db, ops, d);
    hide Inv;
    forall u | 0 <= u < |d.txns| ensures Ascending(d.shop.menu, d.txns[u]) {
      Facts(d, u);
    }
    NoDeadlock(d, t);
  }

  /** Nobody can run: only the database's own deadlock detection, which aborts one of them, helps. */
  ghost predicate Deadlocked(db: Database) {
    && (exists t: nat :: t < |db.txns| && !db.txns[t].Finished())
    && (forall t: nat, item: Id :: !CanAdvance(db, t, item))
  }

  /** A deadlock needs a cancellation that holds a row above one it waits for. */
  lemma DeadlockNeedsCancellation(db: Database)
    requires Inv(db) && Deadlocked(db)
    ensures exists u: nat :: u < |db.txns| && db.txns[u].phase.Releasing? && !Ascending(db.shop.menu, db.txns[u])
  {
    hide Inv, CanAdvance, Ascending;
    var t: nat :| t < |db.txns| && !db.txns[t].Finished();
    if forall u: nat :: u < |db.txns| && db.txns[u].phase.Releasing? ==> Ascending(db.shop.menu, db.txns[u]) {
      forall u: nat | u < |db.txns| ensures Ascending(db.shop.menu, db.txns[u]) {
        if !db.txns[u].phase.Releasing? {
          OthersAscend(db, u);
        }
      }
      NoDeadlock(db, t);
    }
  }

  lemma OthersAscend(db: Database, u: nat)
    requires Inv(db) && u < |db.txns| && !db.txns[u].phase.Releasing?
    ensures Ascending(db.shop.menu, db.txns[u])
  {
    hide Inv;
    Facts(db, u);
  }

  predicate BothWant(db: Database, item: Id)
    requires |db.txns| == 2
  {
    item in Wanted(db.shop.menu, db.txns[0]) && item in Wanted(db.shop.menu, db.txns[1])
  }

  lemma WaitsForTheOther(db: Database, t: nat)
    requires Inv(db) && Deadlocked(db) && |db.txns| == 2 && t < 2
    requires !db.txns[t].Finished() && !db.txns[t].phase.Arrived?
    ensures var next := NextRow(db, t);
      && BothWant(db, next) && next !in db.txns[t].seen && next in db.txns[1 - t].seen
      && db.txns[1 - t].HoldsRows()
  {
    hide Inv, CanAdvance, Wanted;
    GoesOnOrWaits(db, t);
    var next := NextRow(db, t);
    HolderWants(db, t, next);
    var u: nat :| Holder(db, u, next) && db.txns[u].HoldsRows();
    Facts(db, u);
  }

  /** Two transactions deadlock only when they want two common rows. */
  lemma TwoCommonRows(db: Database)
    requires Inv(db) && Deadlocked(db) && |db.txns| == 2
    ensures exists a, b :: BothWant(db, a) && BothWant(db, b) && a != b
  {
    var t: nat :| t < |db.txns| && !db.txns[t].Finished();
    BothRun(db, t);
    hide Inv, Deadlocked, BothWant, NextRow;
    WaitsForTheOther(db, t);
    WaitsForTheOther(db, 1 - t);
  }

  /** In a deadlock of two, both have started and neither has finished. */
  lemma BothRun(db: Database, t: nat)
    requires Inv(db) && Deadlocked(db) && |db.txns| == 2 && t < 2 && !db.txns[t].Finished()
    ensures !db.txns[t].phase.Arrived?
    ensures !db.txns[1 - t].phase.Arrived? && !db.txns[1 - t].Finished()
  {
    hide Inv, Wanted;
    if db.txns[t].phase.Arrived? {
      ArrivedHoldsNothing(db, t);
      assert !CanAdvance(db, t, 0);
      HoldersAreRunning(db.txns[1 - t]);
      hide CanAdvance;
      WaitsForTheOther(db, 1 - t);
    } else {
      hide CanAdvance;
      WaitsForTheOther(db, t);
    }
  }

  lemma ArrivedHoldsNothing(db: Database, t: nat)
    requires Inv(db) && t < |db.txns| && db.txns[t].phase.Arrived?
    ensures db.txns[t].seen == map[]
    ensures !db.txns[t].HoldsAdvisory() && !db.txns[t].HoldsOrderRow()
  {
    Facts(db, t);
  }
}
