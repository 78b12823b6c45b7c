/** Exactly which calls may deadlock: those that can hold and await item rows around a cycle. */
module Deadlocks {
  import opened Types
  import opened Locking
  import opened Interleaving
  import opened SerialRuns
  import opened Cycles
  import V = Venue

  // ---------- a deadlock has a cycle ----------

  /** What no statement changes: settings, the kind of every row, the calls, and the lines of every order. An order
      that can still be cancelled could be cancelled before. */
  ghost predicate Follows(db: Database, d: Database) {
    && d.shop.(menu := db.shop.menu) == db.shop && SameKinds(db.shop.menu, d.shop.menu)
    && |db.txns| <= |d.txns| && (forall t :: 0 <= t < |db.txns| ==> d.txns[t].call == db.txns[t].call)
    && OrdersFollow(db, d)
  }

  ghost predicate OrdersFollow(db: Database, d: Database) {
    && (forall o :: o in db.orders ==> o in d.orders && OrderFollows(db.orders[o], d.orders[o]))
    && (forall o :: o in d.orders && o !in db.orders ==> Creates(d.txns, o))
  }

  ghost predicate OrderFollows(v: V.Order, u: V.Order) {
    && u.lines == v.lines
    && (u.status == Accepted && u.cancelDecision.None? ==> v.status == Accepted && v.cancelDecision.None?)
  }

  ghost predicate Creates(txns: seq<Txn>, order: Id) {
    exists t :: 0 <= t < |txns| && txns[t].call.Decide? && txns[t].call.Order() == order
  }

  lemma AdvanceFollows(db: Database, t: nat, item: Id)
    requires Inv(db) && CanAdvance(db, t, item) && WellFormed(db, db.txns[t])
    ensures Follows(db, Advance(db, t, item))
  {
    AdvanceKeepsKinds(db, t, item);
    AdvanceKeepsOrders(db, t, item);
    Stopped(db, t, item);
    hide Inv, Advance, CanAdvance, SameKinds, OrdersFollow;
    var d := Advance(db, t, item);
    CallsStay(db, d, t);
  }

  lemma CallsStay(db: Database, d: Database, t: nat)
    requires t < |db.txns| == |d.txns| && d.txns[t := db.txns[t]] == db.txns && d.txns[t].call == db.txns[t].call
    ensures forall u :: 0 <= u < |db.txns| ==> d.txns[u].call == db.txns[u].call
  {
    forall u | 0 <= u < |db.txns| ensures d.txns[u].call == db.txns[u].call {
      assert u != t ==> d.txns[t := db.txns[t]][u] == d.txns[u];
    }
  }

  lemma AdvanceKeepsKinds(db: Database, t: nat, item: Id)
    requires CanAdvance(db, t, item) && WellFormed(db, db.txns[t])
    ensures SameKinds(db.shop.menu, Advance(db, t, item).shop.menu)
    ensures Advance(db, t, item).txns[t].call == db.txns[t].call
  {
    hide V.Judge, V.Joined, V.Transition, V.Emit, Free, Least;
  }

  /** At most its own order, which a decision creates and the others move on. */
  ghost predicate StoresOwn(db: Database, t: nat, d: Database)
    requires t < |db.txns|
  {
    var order := db.txns[t].call.Order();
    || d.orders == db.orders
    || (&& order in d.orders && d.orders == db.orders[order := d.orders[order]]
        && if order in db.orders then OrderFollows(db.orders[order], d.orders[order]) else db.txns[t].call.Decide?)
  }

  lemma DecisionStores(db: Database, t: nat, item: Id)
    requires CanAdvance(db, t, item) && Proceeds(db, db.txns[t]) && db.txns[t].call.Decide?
    ensures StoresOwn(db, t, AdvanceDecision(db, t, item))
  {
    hide V.Judge, V.ValidCommand, V.Take, Free, Remaining, OrderFollows;
  }

  lemma CancelStores(db: Database, t: nat, item: Id)
    requires CanAdvance(db, t, item) && WellFormed(db, db.txns[t]) && db.txns[t].call.Cancel?
    ensures StoresOwn(db, t, AdvanceCancel(db, t, item))
  {
    hide Given, Locked, Free, Remaining;
  }

  lemma MoveStores(db: Database, t: nat, item: Id)
    requires CanAdvance(db, t, item) && WellFormed(db, db.txns[t]) && db.txns[t].call.Move?
    ensures StoresOwn(db, t, AdvanceMove(db, t, item))
  {
    hide Free, Remaining;
  }

  lemma AdvanceKeepsOrders(db: Database, t: nat, item: Id)
    requires Inv(db) && CanAdvance(db, t, item) && WellFormed(db, db.txns[t])
    ensures OrdersFollow(db, Advance(db, t, item))
  {
    Facts(db, t);
    AdvanceKeepsKinds(db, t, item);
    hide Inv, Proceeds, LocksAscend, RowsMatch, CanAdvance, SameKinds, AdvanceDecision, AdvanceCancel, AdvanceMove;
    var d := Advance(db, t, item);
    match db.txns[t].call {
      case Decide(_, _) => DecisionStores(db, t, item);
      case Cancel(_, _, _) => CancelStores(db, t, item);
      case Move(_, _, _, _) => MoveStores(db, t, item);
    }
    hide Advance;
    assert d.txns[t].call.Decide? ==> Creates(d.txns, db.txns[t].call.Order());
  }

  lemma AbortFollows(db: Database, t: nat)
    requires Inv(db) && t < |db.txns|
    ensures Follows(db, Abort(db, t))
  {
    Facts(db, t);
    SameFiniteness(db.shop.menu, db.txns[t]);
    hide Inv, RowsMatch, LocksAscend, Proceeds;
  }

  lemma OpFollows(db: Database, op: Op)
    requires Inv(db) && Can(db, op)
    ensures Follows(db, Do(db, op))
  {
    match op {
      case Begins(call) => hide Inv, V.ValidCommand;
      case Runs(t, item) => hide Inv, Follows, Advance, CanAdvance; AdvanceFollows(db, t, item);
      case Fails(t) => hide Inv, Follows; AbortFollows(db, t);
    }
  }

  lemma FollowsTwice(db: Database, c: Database, d: Database)
    requires Follows(db, c) && Follows(c, d)
    ensures Follows(db, d)
  {
    forall o | o in d.orders && o !in db.orders ensures Creates(d.txns, o) {
      if o in c.orders {
        var t :| 0 <= t < |c.txns| && c.txns[t].call.Decide? && c.txns[t].call.Order() == o;
        assert d.txns[t].call == c.txns[t].call;
      }
    }
  }

  lemma {:induction false} RunFollows(db: Database, ops: seq<Op>, d: Database)
    requires Inv(db) && Run(db, ops, d)
    ensures Follows(db, d)
    decreases |ops|
  {
    if ops != [] {
      hide Inv, Can, Do, Follows;
      OpRefines(db, ops[0]);
      OpFollows(db, ops[0]);
      RunFollows(Do(db, ops[0]), ops[1..], d);
      FollowsTwice(db, Do(db, ops[0]), d);
    }
  }

  /** No call cancels an order that only another one of the calls creates. */
  ghost predicate KnownOrders(db: Database, calls: set<Call>) {
    forall x, y :: x in calls && y in calls && x.Cancel? && y.Decide? && x.order == y.command.order ==>
      x.order in db.orders
  }

  lemma CancelsKnownOrder(db: Database, calls: set<Call>, d: Database, t: nat)
    requires KnownOrders(db, calls) && Follows(db, d) && Makes(d, calls)
    requires t < |d.txns| && d.txns[t].call.Cancel? && d.txns[t].call.order in d.orders
    ensures d.txns[t].call.order in db.orders
  {
    var order := d.txns[t].call.order;
    assert order in db.orders || Creates(d.txns, order);
    if Creates(d.txns, order) {
      var u :| 0 <= u < |d.txns| && d.txns[u].call.Decide? && d.txns[u].call.Order() == order;
      assert d.txns[u].call in calls && d.txns[t].call in calls;
    }
  }

  /** A transaction that takes rows might as well have started on this database. */
  ghost predicate OpenedOn(db: Database, d: Database, t: nat)
    requires t < |d.txns|
  {
    var txn := d.txns[t];
    && Opens(db, txn.call) && txn == Opened(db, txn.call).(seen := txn.seen)
    && Wanted(d.shop.menu, txn) == Rows(db, txn.call)
  }

  ghost predicate AllOpenedOn(db: Database, d: Database) {
    forall t: nat :: t < |d.txns| && (d.txns[t].phase.Scanning? || d.txns[t].phase.Releasing?) ==> OpenedOn(db, d, t)
  }

  /** The database as if the transactions under way had not started. */
  ghost function Rest(db: Database): Database {
    Database(Visible(db), db.orders, [])
  }

  lemma OpenedNow(d: Database, t: nat)
    requires Inv(d) && t < |d.txns| && (d.txns[t].phase.Scanning? || d.txns[t].phase.Releasing?)
    ensures OpenedOn(Rest(d), d, t)
  {
    Facts(d, t);
    var txn := d.txns[t];
    hide Inv, LocksAscend, RowsMatch, V.ValidCommand, V.Judge, CommittedRow;
    forall i | i in d.shop.menu ensures Committed(d)[i].stock.Some? <==> d.shop.menu[i].stock.Some? {
      FiniteRow(d, i);
    }
    SameWants(d.shop.menu, Committed(d), txn);
    assert txn == Opened(Rest(d), txn.call).(seen := txn.seen);
    WantedBySeen(Committed(d), Opened(Rest(d), txn.call), txn.seen);
  }

  /** A transaction that holds rows came from a call that opened the database at rest. */
  lemma HolderOpens(db: Database, calls: set<Call>, d: Database, t: nat)
    requires KnownOrders(db, calls) && Follows(db, d) && Inv(d) && Makes(d, calls)
    requires t < |d.txns| && (d.txns[t].phase.Scanning? || d.txns[t].phase.Releasing?)
    ensures OpenedOn(db, d, t)
  {
    Facts(d, t);
    var txn := d.txns[t];
    hide Inv, LocksAscend, RowsMatch, V.ValidCommand, V.Judge;
    if txn.call.Cancel? {
      CancelsKnownOrder(db, calls, d, t);
    }
    hide KnownOrders, Makes, Creates;
    assert txn == Opened(db, txn.call).(seen := txn.seen);
    SameWants(db.shop.menu, d.shop.menu, txn);
    WantedBySeen(db.shop.menu, Opened(db, txn.call), txn.seen);
  }

  ghost predicate Waiting(db: Database, t: nat) {
    && t < |db.txns| && Remaining(db, t) != {}
    && (db.txns[t].phase.Scanning? || db.txns[t].phase.Releasing?)
  }

  /** Distinct waiting transactions, each of which holds what the one before it awaits. */
  ghost predicate WaitPath(db: Database, path: seq<nat>) {
    && (forall k :: 0 <= k < |path| ==> Waiting(db, path[k]))
    && (forall j, k :: 0 <= j < k < |path| ==> path[j] != path[k])
    && (forall k :: 0 < k < |path| ==> Passes(db, path, k))
  }

  ghost predicate Passes(db: Database, path: seq<nat>, k: nat)
    requires k < |path|
  {
    var before := path[Before(|path|, k)];
    before < |db.txns| && Holder(db, path[k], NextRow(db, before))
  }

  ghost predicate WaitCycle(db: Database, path: seq<nat>) {
    |path| >= 2 && WaitPath(db, path) && Passes(db, path, 0)
  }

  /** In a deadlock whoever has started waits for another one that has started. */
  lemma WaitsForAnother(db: Database, t: nat) returns (u: nat)
    requires Inv(db) && Deadlocked(db) && t < |db.txns| && !db.txns[t].Finished() && !db.txns[t].phase.Arrived?
    ensures Waiting(db, t) && u < |db.txns| && u != t && Holder(db, u, NextRow(db, t)) && db.txns[u].HoldsRows()
  {
    GoesOnOrWaits(db, t);
    hide Inv, CanAdvance, Wanted;
    HolderWants(db, t, NextRow(db, t));
    u :| Holder(db, u, NextRow(db, t)) && db.txns[u].HoldsRows();
  }

  ghost function Outside(db: Database, path: seq<nat>): set<nat> {
    set t: nat | t < |db.txns| && t !in path
  }

  lemma {:induction false} PathCloses(db: Database, path: seq<nat>, u: nat) returns (cycle: seq<nat>)
    requires Inv(db) && Deadlocked(db) && WaitPath(db, path)
    requires u < |db.txns| && db.txns[u].HoldsRows()
    requires |path| > 0 ==> u != path[|path| - 1] && Holder(db, u, NextRow(db, path[|path| - 1]))
    ensures WaitCycle(db, cycle)
    decreases Outside(db, path)
  {
    hide Inv, Deadlocked, NextRow;
    if u in path {
      var i :| 0 <= i < |path| && path[i] == u;
      cycle := path[i..];
      PathSuffix(db, path, i);
    } else {
      var next := WaitsForAnother(db, u);
      assert u in Outside(db, path) && u !in Outside(db, path + [u]);
      PathExtends(db, path, u);
      cycle := PathCloses(db, path + [u], next);
    }
  }

  lemma PathSuffix(db: Database, path: seq<nat>, i: nat)
    requires WaitPath(db, path) && i < |path| - 1 && Holder(db, path[i], NextRow(db, path[|path| - 1]))
    ensures WaitCycle(db, path[i..])
  {
    hide NextRow, Holder, Remaining;
    var suffix := path[i..];
    assert Waiting(db, path[|path| - 1]) && Passes(db, suffix, 0);
    forall k | 0 < k < |suffix| ensures Passes(db, suffix, k) {
      assert Passes(db, path, i + k);
    }
  }

  lemma PathExtends(db: Database, path: seq<nat>, u: nat)
    requires WaitPath(db, path) && u !in path && Waiting(db, u)
    requires |path| > 0 ==> Holder(db, u, NextRow(db, path[|path| - 1]))
    ensures WaitPath(db, path + [u])
    ensures Outside(db, path + [u]) <= Outside(db, path)
  {
    hide NextRow, Holder, Remaining;
    var longer := path + [u];
    forall k | 0 < k < |longer| ensures Passes(db, longer, k) {
      if k < |path| {
        assert Passes(db, path, k);
      } else {
        assert Waiting(db, path[k - 1]);
      }
    }
  }

  lemma DeadlockWaitsInCycle(db: Database) returns (cycle: seq<nat>)
    requires Inv(db) && Deadlocked(db)
    ensures WaitCycle(db, cycle)
  {
    hide Inv, WaitCycle, CanAdvance;
    var t: nat :| t < |db.txns| && !db.txns[t].Finished();
    var u := Started(db, t);
    var v := WaitsForAnother(db, u);
    cycle := PathCloses(db, [], v);
  }

  /** Where nobody can run, somebody has started. */
  lemma Started(db: Database, t: nat) returns (u: nat)
    requires Deadlocked(db) && t < |db.txns| && !db.txns[t].Finished()
    ensures u < |db.txns| && !db.txns[u].Finished() && !db.txns[u].phase.Arrived?
  {
    u := t;
    if db.txns[t].phase.Arrived? {
      assert !CanAdvance(db, t, 0);
      u :| u < |db.txns| && (db.txns[u].HoldsAdvisory() || db.txns[u].HoldsOrderRow());
      HoldersAreRunning(db.txns[u]);
    }
  }

  ghost function LinkOf(db: Database, path: seq<nat>, k: nat): Link
    requires WaitCycle(db, path) && k < |path|
  {
    assert Waiting(db, path[k]) && Waiting(db, path[Before(|path|, k)]);
    Link(db.txns[path[k]].call, NextRow(db, path[Before(|path|, k)]), NextRow(db, path[k]))
  }

  lemma LinkFits(db: Database, calls: set<Call>, d: Database, path: seq<nat>, k: nat)
    requires AllOpenedOn(db, d) && Inv(d) && Makes(d, calls) && WaitCycle(d, path) && k < |path|
    ensures Fits(db, calls, LinkOf(d, path, k))
    ensures path[k] < |d.txns| && Taken(db, LinkOf(d, path, k)) <= d.txns[path[k]].seen.Keys
  {
    var t := path[k];
    assert Waiting(d, t);
    assert OpenedOn(db, d, t);
    Facts(d, t);
    assert Passes(d, path, k);
    hide Inv, AllOpenedOn, Makes, Proceeds, RowsMatch, Opens, WaitCycle, Passes;
    var link := LinkOf(d, path, k);
    HolderFits(db, calls, d, t, link);
  }

  lemma LinksApart(db: Database, calls: set<Call>, d: Database, path: seq<nat>, j: nat, k: nat)
    requires AllOpenedOn(db, d) && Inv(d) && Makes(d, calls) && WaitCycle(d, path)
    requires j < |path| && k < |path| && j != k
    ensures Opens(db, LinkOf(d, path, j).call) && Opens(db, LinkOf(d, path, k).call)
    ensures Apart(db, LinkOf(d, path, j), LinkOf(d, path, k))
  {
    assert Waiting(d, path[j]) && Waiting(d, path[k]) && path[j] != path[k];
    HoldersDiffer(d, path[j], path[k]);
    hide Inv, AllOpenedOn, Makes, WaitCycle, NextRow, Opens;
    LinkFits(db, calls, d, path, j);
    LinkFits(db, calls, d, path, k);
    hide Taken, Rows;
  }

  lemma LinksAreCycle(db: Database, calls: set<Call>, d: Database, path: seq<nat>, cycle: seq<Link>)
    requires AllOpenedOn(db, d) && Inv(d) && Makes(d, calls) && WaitCycle(d, path)
    requires |cycle| == |path| && forall k :: 0 <= k < |path| ==> cycle[k] == LinkOf(d, path, k)
    ensures Cycle(db, calls, cycle)
  {
    assert |path| >= 2;
    hide Inv, AllOpenedOn, Makes, WaitCycle, Fits, Apart, Opens, Taken, Rows, NextRow;
    forall k | 0 <= k < |cycle| ensures Fits(db, calls, cycle[k]) {
      LinkFits(db, calls, d, path, k);
    }
    forall k | 0 <= k < |cycle| ensures Linked(cycle, k) {
      assert cycle[Before(|path|, k)] == LinkOf(d, path, Before(|path|, k));
    }
    hide LinkOf, Linked;
    forall j, k | 0 <= j < |cycle| && 0 <= k < |cycle| && j != k
      ensures Opens(db, cycle[j].call) && Opens(db, cycle[k].call) && Apart(db, cycle[j], cycle[k])
    {
      LinksApart(db, calls, d, path, j, k);
    }
  }

  lemma WaitCycleIsCycle(db: Database, calls: set<Call>, d: Database, path: seq<nat>) returns (cycle: seq<Link>)
    requires AllOpenedOn(db, d) && Inv(d) && Makes(d, calls) && WaitCycle(d, path)
    ensures Cycle(db, calls, cycle)
  {
    hide Inv, AllOpenedOn, Makes, WaitCycle, LinkOf, Cycle;
    cycle := seq(|path|, k requires 0 <= k < |path| => LinkOf(d, path, k));
    LinksAreCycle(db, calls, d, path, cycle);
  }

  lemma HolderFits(db: Database, calls: set<Call>, d: Database, t: nat, link: Link)
    requires Waiting(d, t) && LocksAscend(d.shop.menu, d.txns[t]) && Opens(db, link.call) && link.call in calls
    requires d.txns[t] == Opened(db, link.call).(seen := d.txns[t].seen)
    requires Wanted(d.shop.menu, d.txns[t]) == Rows(db, link.call)
    requires link.awaits == NextRow(d, t) && link.holds in d.txns[t].seen
    ensures Fits(db, calls, link) && Taken(db, link) <= d.txns[t].seen.Keys
  {
    hide Opens, Rows, Wanted;
    assert link.awaits in Remaining(d, t);
    forall i | i in Rows(db, link.call) && i < link.awaits ensures i in d.txns[t].seen {
      assert i !in Remaining(d, t);
    }
  }

  lemma HoldersDiffer(db: Database, t: nat, u: nat)
    requires Inv(db) && t < |db.txns| && u < |db.txns| && t != u && Waiting(db, t) && Waiting(db, u)
    ensures db.txns[t].call.Order() != db.txns[u].call.Order()
    ensures db.txns[t].seen.Keys !! db.txns[u].seen.Keys
  {
    Facts(db, t);
    Facts(db, u);
    hide LocksAscend, RowsMatch, SoundLines, V.Judge, V.ValidCommand;
  }

  // ---------- the main result ----------

  lemma NothingMade(db: Database, calls: set<Call>)
    requires AtRest(db)
    ensures Makes(db, calls)
  {
  }

  /** The completed calls of a run are among those it has made. */
  lemma {:induction false} CompletedIsMade(db: Database, ops: seq<Op>, d: Database, calls: set<Call>)
    requires Inv(db) && Run(db, ops, d) && Makes(d, calls)
    ensures Made(Interleaving.Completed(db, ops), calls)
    decreases |ops|
  {
    if ops != [] {
      var c := Do(db, ops[0]);
      OpRefines(db, ops[0]);
      RunFollows(c, ops[1..], d);
      FirstIsMade(db, ops[0], d, calls);
      hide Inv, Can, Do, Completes, Follows, Makes, V.ValidCommand;
      CompletedIsMade(c, ops[1..], d, calls);
      CompletedFirst(db, ops);
    }
  }

  lemma FirstIsMade(db: Database, op: Op, d: Database, calls: set<Call>)
    requires Inv(db) && Can(db, op) && Follows(Do(db, op), d) && Makes(d, calls)
    ensures Completes(db, op) ==>
      var call := db.txns[op.txn].call; call in calls && (call.Decide? ==> V.ValidCommand(call.command))
  {
    if Completes(db, op) {
      Facts(db, op.txn);
      OpFollows(db, op);
      hide Inv, V.ValidCommand, CanAdvance, Advance, OrdersFollow, SameKinds;
      var c := Do(db, op);
      assert c.txns[op.txn].call == db.txns[op.txn].call;
      assert d.txns[op.txn].call == c.txns[op.txn].call;
    }
  }

  /** After some of the calls, performed one after another, there is a cycle of calls. */
  ghost predicate CyclesAfter(db: Database, calls: set<Call>) {
    exists done, after, result, cycle ::
      && Made(done, calls) && Serial(db.shop, db.orders, done, after, result)
      && Cycle(Database(after, result, []), calls, cycle)
  }

  lemma CycleAfter(db: Database, calls: set<Call>, done: seq<(Call, Reply)>, after: V.Shop, result: map<Id, V.Order>,
                   cycle: seq<Link>)
    requires AtRest(db) && Made(done, calls) && Serial(db.shop, db.orders, done, after, result)
    requires Cycle(Database(after, result, []), calls, cycle)
    ensures MayDeadlock(db, calls)
  {
    RestIsQuiet(db);
    NothingMade(db, calls);
    hide AtRest, Quiet, Reaches, Makes, Made, Cycle, Serial, Run, Deadlocked;
    var c := SerialIsRun(db, calls, done, after, result);
    SameCycle(Database(after, result, []), c, calls, cycle);
    CycleDeadlocks(c, calls, cycle);
    var ops, d :| Run(c, ops, d) && Deadlocked(d) && Makes(d, calls);
    ReachesThen(db, c, ops, d);
  }

  lemma ReachesThen(db: Database, c: Database, ops: seq<Op>, d: Database)
    requires Reaches(db, c) && Run(c, ops, d)
    ensures exists all :: Run(db, all, d)
  {
    hide Run;
    var before :| Run(db, before, c);
    RunsJoin(db, before, c, ops, d);
  }

  lemma SameCycle(db: Database, d: Database, calls: set<Call>, cycle: seq<Link>)
    requires d.shop == db.shop && d.orders == db.orders && Cycle(db, calls, cycle)
    ensures Cycle(d, calls, cycle)
  {
    hide V.ValidCommand, Wanted;
    forall call: Call ensures Opens(d, call) <==> Opens(db, call) {
    }
    forall call: Call | Opens(db, call) ensures Rows(d, call) == Rows(db, call) {
    }
    hide Opens, Rows;
    forall k | 0 <= k < |cycle| ensures Fits(d, calls, cycle[k]) {
      assert Fits(db, calls, cycle[k]);
    }
    forall j, k | 0 <= j < |cycle| && 0 <= k < |cycle| && j != k ensures Apart(d, cycle[j], cycle[k]) {
      assert Apart(db, cycle[j], cycle[k]);
    }
  }

  /** Any calls on any database at rest may deadlock if and only if, after some of them performed one after another,
      there is a cycle of them in which each can come to hold an item row that the one before it awaits. */
  lemma DeadlocksExactlyInCycles(db: Database, calls: set<Call>)
    requires AtRest(db)
    ensures MayDeadlock(db, calls) <==> CyclesAfter(db, calls)
  {
    hide Deadlocked, Makes, Made, Cycle, Run, Serial, AtRest, Inv;
    if CyclesAfter(db, calls) {
      var done, after, result, cycle :| Made(done, calls) && Serial(db.shop, db.orders, done, after, result) &&
        Cycle(Database(after, result, []), calls, cycle);
      CycleAfter(db, calls, done, after, result, cycle);
    }
    if MayDeadlock(db, calls) {
      var ops, d :| Run(db, ops, d) && Deadlocked(d) && Makes(d, calls);
      RestIsQuiet(db);
      RunIsSerial(db, ops, d);
      CompletedIsMade(db, ops, d, calls);
      AllOpenedNow(d);
      var path := DeadlockWaitsInCycle(d);
      var cycle := WaitCycleIsCycle(Rest(d), calls, d, path);
    }
  }

  lemma AllOpenedNow(d: Database)
    requires Inv(d)
    ensures AllOpenedOn(Rest(d), d)
  {
    hide Inv, OpenedOn;
    forall t: nat | t < |d.txns| && (d.txns[t].phase.Scanning? || d.txns[t].phase.Releasing?)
      ensures OpenedOn(Rest(d), d, t)
    {
      OpenedNow(d, t);
    }
  }

  /** Where no call cancels an order that another one creates, the calls before the cycle do not matter. */
  lemma KnownOrdersDeadlock(db: Database, calls: set<Call>)
    requires AtRest(db) && KnownOrders(db, calls)
    ensures MayDeadlock(db, calls) <==> exists cycle :: Cycle(db, calls, cycle)
  {
    RestIsQuiet(db);
    NothingMade(db, calls);
    hide KnownOrders, Deadlocked, Makes, Cycle, Run, AtRest, Inv;
    if cycle :| Cycle(db, calls, cycle) {
      CycleDeadlocks(db, calls, cycle);
    }
    if MayDeadlock(db, calls) {
      var ops, d :| Run(db, ops, d) && Deadlocked(d) && Makes(d, calls);
      RunIsSerial(db, ops, d);
      RunFollows(db, ops, d);
      AllOpenedBefore(db, calls, d);
      var path := DeadlockWaitsInCycle(d);
      var cycle := WaitCycleIsCycle(db, calls, d, path);
    }
  }

  lemma AllOpenedBefore(db: Database, calls: set<Call>, d: Database)
    requires KnownOrders(db, calls) && Follows(db, d) && Inv(d) && Makes(d, calls)
    ensures AllOpenedOn(db, d)
  {
    hide Inv, OpenedOn, KnownOrders, Follows, Makes;
    forall t: nat | t < |d.txns| && (d.txns[t].phase.Scanning? || d.txns[t].phase.Releasing?)
      ensures OpenedOn(db, d, t)
    {
      HolderOpens(db, calls, d, t);
    }
  }

  // ---------- two calls ----------

  lemma PairIsKnown(db: Database, x: Call, y: Call)
    requires Opens(db, x) && Opens(db, y)
    ensures KnownOrders(db, {x, y})
  {
  }

  /** A cancellation and another call deadlock if and only if they want two common rows. */
  lemma PairDeadlocks(db: Database, x: Call, y: Call)
    requires AtRest(db) && Opens(db, x) && Opens(db, y) && y.Cancel? && x.Order() != y.Order()
    ensures MayDeadlock(db, {x, y}) <==> exists a, b :: a < b && {a, b} <= Rows(db, x) * Rows(db, y)
  {
    PairIsKnown(db, x, y);
    hide AtRest, MayDeadlock, Opens, Rows, KnownOrders;
    KnownOrdersDeadlock(db, {x, y});
    if a, b :| a < b && {a, b} <= Rows(db, x) * Rows(db, y) {
      PairCycles(db, x, y, a, b);
    }
    if cycle :| Cycle(db, {x, y}, cycle) {
      CycleOfTwo(db, x, y, cycle);
    }
  }

  lemma PairCycles(db: Database, x: Call, y: Call, a: Id, b: Id)
    requires Opens(db, x) && Opens(db, y) && y.Cancel? && x.Order() != y.Order()
    requires a < b && {a, b} <= Rows(db, x) * Rows(db, y)
    ensures Cycle(db, {x, y}, [Link(x, a, b), Link(y, b, a)])
  {
    hide Opens, Rows;
  }

  lemma MembersDiffer(db: Database, calls: set<Call>, cycle: seq<Link>, j: nat, k: nat)
    requires Cycle(db, calls, cycle) && j < |cycle| && k < |cycle| && j != k
    ensures cycle[j].call in calls && cycle[k].call in calls && cycle[j].call != cycle[k].call
  {
    hide Opens, Rows, Taken;
    assert Fits(db, calls, cycle[j]) && Fits(db, calls, cycle[k]) && Apart(db, cycle[j], cycle[k]);
  }

  lemma OnlyTwo(db: Database, x: Call, y: Call, cycle: seq<Link>)
    requires Cycle(db, {x, y}, cycle)
    ensures |cycle| == 2
  {
    hide Fits, Linked, Apart;
    if |cycle| > 2 {
      MembersDiffer(db, {x, y}, cycle, 0, 1);
      MembersDiffer(db, {x, y}, cycle, 0, 2);
      MembersDiffer(db, {x, y}, cycle, 1, 2);
      assert false;
    }
  }

  lemma CycleOfTwo(db: Database, x: Call, y: Call, cycle: seq<Link>)
    requires Opens(db, x) && Opens(db, y) && Cycle(db, {x, y}, cycle)
    ensures exists a, b :: a < b && {a, b} <= Rows(db, x) * Rows(db, y)
  {
    hide Opens, Rows;
    assert Apart(db, cycle[0], cycle[1]) && Fits(db, {x, y}, cycle[0]) && Fits(db, {x, y}, cycle[1]);
    OnlyTwo(db, x, y, cycle);
    assert Linked(cycle, 0) && Linked(cycle, 1);
    var a, b := cycle[0].holds, cycle[1].holds;
    assert a != b && {a, b} == {b, a} && {a, b} <= Rows(db, x) * Rows(db, y);
  }

  /** An item with finite stock that both the command and the stored order name. */
  predicate Common(db: Database, command: OrderCommand, order: Id, item: Id)
    requires order in db.orders
  {
    && item in db.shop.menu && db.shop.menu[item].stock.Some?
    && (exists i :: 0 <= i < |command.lines| && command.lines[i].item == item)
    && (exists i :: 0 <= i < |db.orders[order].lines| && db.orders[order].lines[i].item == item)
  }

  lemma CommonRows(db: Database, command: OrderCommand, newId: Id, order: Id, eventId: Id, at: int)
    requires Opens(db, Decide(command, newId)) && Opens(db, Cancel(order, eventId, at))
    ensures forall i :: i in Rows(db, Decide(command, newId)) * Rows(db, Cancel(order, eventId, at)) <==>
      Common(db, command, order, i)
  {
    hide V.ValidCommand;
  }

  /** A decision and a cancellation may deadlock if and only if two items with finite stock are on both orders. */
  lemma TwoCallsDeadlock(db: Database, command: OrderCommand, newId: Id, order: Id, eventId: Id, at: int)
    requires AtRest(db) && Opens(db, Decide(command, newId)) && Opens(db, Cancel(order, eventId, at))
    ensures MayDeadlock(db, {Decide(command, newId), Cancel(order, eventId, at)}) <==>
      exists a, b :: a != b && Common(db, command, order, a) && Common(db, command, order, b)
  {
    var x, y := Decide(command, newId), Cancel(order, eventId, at);
    PairDeadlocks(db, x, y);
    CommonRows(db, command, newId, order, eventId, at);
    hide AtRest, MayDeadlock, Opens, Rows, Common;
    if a, b :| a != b && Common(db, command, order, a) && Common(db, command, order, b) {
      assert {a, b} == {b, a} && {a, b} <= Rows(db, x) * Rows(db, y);
    }
    if a, b :| a < b && {a, b} <= Rows(db, x) * Rows(db, y) {
      assert a in {a, b} && b in {a, b};
    }
  }

  // ---------- examples ----------

  function LinesOf(a: Id, b: Id): seq<Line> {
    [Line(a, 1, 1), Line(b, 1, 1)]
  }

  function AcceptedOrder(a: Id, b: Id): V.Order {
    V.Order(1, LinesOf(a, b), Accept(1, 2, "RUB"), Accepted, 1, None, [])
  }

  const EXAMPLE_ITEM := V.MenuItem("", 1, "RUB", Some(4), true)

  /** Three items with finite stock; order 4 is for items 1 and 2, order 5 for 2 and 3, order 6 for 3 and 1. */
  const EXAMPLE := Database(V.Shop(map[1 := EXAMPLE_ITEM, 2 := EXAMPLE_ITEM, 3 := EXAMPLE_ITEM], 1, true),
                            map[4 := AcceptedOrder(1, 2), 5 := AcceptedOrder(2, 3), 6 := AcceptedOrder(3, 1)], [])

  /** Another order for items 1 and 2. */
  const DECISION := Decide(OrderCommand(7, 1, LinesOf(1, 2)), 8)

  lemma ExampleIsOpen()
    ensures AtRest(EXAMPLE) && Opens(EXAMPLE, DECISION) && Rows(EXAMPLE, DECISION) == {1, 2}
  {
    var lines := LinesOf(1, 2);
    assert forall i :: 0 <= i < |lines| ==> V.ValidLine(lines[i]);
    assert lines[0].item == 1 && lines[1].item == 2;
  }

  lemma ExampleRows(order: Id, a: Id, b: Id)
    requires order in EXAMPLE.orders && EXAMPLE.orders[order] == AcceptedOrder(a, b) && 1 <= a <= 3 && 1 <= b <= 3
    ensures Opens(EXAMPLE, Cancel(order, 9, 0)) && Rows(EXAMPLE, Cancel(order, 9, 0)) == {a, b}
  {
    assert LinesOf(a, b)[0].item == a && LinesOf(a, b)[1].item == b;
  }

  /** The release names no order, so a decision and a cancellation over the same two items may each hold the row that
      the other one waits for. The database must abort one of them, which leaves no trace. */
  lemma CancellationMayDeadlock()
    ensures AtRest(EXAMPLE) && MayDeadlock(EXAMPLE, {DECISION, Cancel(4, 9, 0)})
  {
    ExampleIsOpen();
    ExampleRows(4, 1, 2);
    hide AtRest, MayDeadlock, Opens, Rows;
    assert {1, 2} <= Rows(EXAMPLE, DECISION) * Rows(EXAMPLE, Cancel(4, 9, 0));
    PairDeadlocks(EXAMPLE, DECISION, Cancel(4, 9, 0));
  }

  lemma ThreeCycle()
    ensures Cycle(EXAMPLE, {DECISION, Cancel(5, 9, 0), Cancel(6, 9, 0)},
                  [Link(DECISION, 1, 2), Link(Cancel(5, 9, 0), 2, 3), Link(Cancel(6, 9, 0), 3, 1)])
  {
    ExampleIsOpen();
    ExampleRows(5, 2, 3);
    ExampleRows(6, 3, 1);
    hide AtRest, Opens, Rows;
  }

  lemma OneCommonRow(x: Call, y: Call, item: Id)
    requires AtRest(EXAMPLE) && Opens(EXAMPLE, x) && Opens(EXAMPLE, y) && y.Cancel? && x.Order() != y.Order()
    requires Rows(EXAMPLE, x) * Rows(EXAMPLE, y) == {item}
    ensures !MayDeadlock(EXAMPLE, {x, y})
  {
    hide AtRest, MayDeadlock, Opens, Rows;
    PairDeadlocks(EXAMPLE, x, y);
    forall a, b: Id | a < b ensures !({a, b} <= {item}) {
      assert a in {a, b} && b in {a, b};
    }
  }

  /** For more than two calls no two common rows are needed: these three may deadlock, although any two of them have
      one row in common and never do. */
  lemma ThreeMayDeadlock()
    ensures AtRest(EXAMPLE)
    ensures !MayDeadlock(EXAMPLE, {DECISION, Cancel(5, 9, 0)}) && !MayDeadlock(EXAMPLE, {DECISION, Cancel(6, 9, 0)})
    ensures !MayDeadlock(EXAMPLE, {Cancel(5, 9, 0), Cancel(6, 9, 0)})
    ensures MayDeadlock(EXAMPLE, {DECISION, Cancel(5, 9, 0), Cancel(6, 9, 0)})
  {
    var x, y, z := DECISION, Cancel(5, 9, 0), Cancel(6, 9, 0);
    ExampleIsOpen();
    ExampleRows(5, 2, 3);
    ExampleRows(6, 3, 1);
    ThreeCycle();
    hide AtRest, MayDeadlock, Opens, Rows, Cycle;
    assert Rows(EXAMPLE, x) * Rows(EXAMPLE, y) == {2};
    assert Rows(EXAMPLE, x) * Rows(EXAMPLE, z) == {1};
    assert Rows(EXAMPLE, y) * Rows(EXAMPLE, z) == {3};
    OneCommonRow(x, y, 2);
    OneCommonRow(x, z, 1);
    OneCommonRow(y, z, 3);
    RestIsQuiet(EXAMPLE);
    NothingMade(EXAMPLE, {x, y, z});
    CycleDeadlocks(EXAMPLE, {x, y, z}, [Link(x, 1, 2), Link(y, 2, 3), Link(z, 3, 1)]);
  }
}
