/** Cycles of calls that can hold and await item rows, and why each of them deadlocks. */
module Cycles {
  import opened Types
  import opened Locking
  import opened Interleaving
  import opened SerialRuns
  import V = Venue

  /** A call that gets as far as locking item rows when it starts on this database. */
  ghost predicate Opens(db: Database, call: Call) {
    match call {
      case Decide(command, _) =>
        && V.ValidCommand(command) && command.order !in db.orders
        && db.shop.accepting && command.menuVersion == db.shop.version
      case Cancel(order, _, _) =>
        order in db.orders && db.orders[order].status == Accepted && db.orders[order].cancelDecision.None?
      case Move(_, _, _, _) => false
    }
  }

  /** The transaction of such a call just before its first item row. */
  ghost function Opened(db: Database, call: Call): Txn
    requires Opens(db, call)
  {
    Txn(call, if call.Decide? then Scanning else Releasing(db.orders[call.order].lines), map[])
  }

  /** The item rows it is going to lock. */
  ghost function Rows(db: Database, call: Call): set<Id>
    requires Opens(db, call)
  {
    Wanted(db.shop.menu, Opened(db, call))
  }

  /** A call, a row it holds and a row it waits for. */
  datatype Link = Link(call: Call, holds: Id, awaits: Id)

  function Before(n: nat, k: nat): nat
    requires k < n
  {
    if k == 0 then n - 1 else k - 1
  }

  /** What a call has locked when it waits: a decision has all its rows below, a cancellation may have just one. */
  ghost function Taken(db: Database, link: Link): set<Id>
    requires Opens(db, link.call)
  {
    if link.call.Decide? then set i | i in Rows(db, link.call) && i < link.awaits else {link.holds}
  }

  /** The call may come to hold the one row while it waits for the other. */
  ghost predicate Fits(db: Database, calls: set<Call>, link: Link) {
    && link.call in calls && Opens(db, link.call)
    && link.holds in Rows(db, link.call) && link.awaits in Rows(db, link.call)
    && link.holds in Taken(db, link)
  }

  /** Neither needs a row that the other one has taken before it waits. */
  ghost predicate Apart(db: Database, x: Link, y: Link)
    requires Opens(db, x.call) && Opens(db, y.call)
  {
    x.call.Order() != y.call.Order() && Taken(db, x) !! Taken(db, y)
  }

  /** A call holds what the one before it awaits. */
  predicate Linked(cycle: seq<Link>, k: nat)
    requires k < |cycle|
  {
    cycle[k].holds == cycle[Before(|cycle|, k)].awaits
  }

  /** Around the cycle each call holds what the one before it awaits. */
  ghost predicate Cycle(db: Database, calls: set<Call>, cycle: seq<Link>) {
    && |cycle| >= 2
    && (forall k :: 0 <= k < |cycle| ==> Fits(db, calls, cycle[k]))
    && (forall k :: 0 <= k < |cycle| ==> Linked(cycle, k))
    && (forall j, k :: 0 <= j < |cycle| && 0 <= k < |cycle| && j != k ==> Apart(db, cycle[j], cycle[k]))
  }

  /** Some run of these calls, each made any number of times, aborted and repeated at will, ends in a deadlock. */
  ghost predicate MayDeadlock(db: Database, calls: set<Call>) {
    exists ops, d :: Run(db, ops, d) && Deadlocked(d) && Makes(d, calls)
  }

  // ---------- a cycle deadlocks ----------

  lemma AlikeRows(db: Database, d: Database, call: Call)
    requires Alike(db, d) && Opens(db, call)
    ensures Opens(d, call) && Opened(d, call) == Opened(db, call) && Rows(d, call) == Rows(db, call)
  {
    SameWants(db.shop.menu, d.shop.menu, Opened(db, call));
    hide Wanted;
  }

  /** A free part of its rows that a transaction can lock without the others: any part for a cancellation, the
      lowest rows for a decision. */
  ghost predicate Lockable(db: Database, t: nat, goal: set<Id>) {
    && t < |db.txns| && (db.txns[t].phase.Scanning? || db.txns[t].phase.Releasing?)
    && db.txns[t].seen.Keys <= goal <= Wanted(db.shop.menu, db.txns[t])
    && (forall i :: i in goal && i !in db.txns[t].seen ==> Free(db, i))
    && (db.txns[t].phase.Scanning? ==>
          forall a, b :: a in goal && b in Wanted(db.shop.menu, db.txns[t]) && b !in goal ==> a < b)
  }

  /** The same database but for the rows that one transaction has locked. */
  ghost predicate HasLocked(db: Database, t: nat, goal: set<Id>, d: Database) {
    && Alike(db, d) && t < |db.txns| == |d.txns|
    && d.txns == db.txns[t := db.txns[t].(seen := d.txns[t].seen)] && d.txns[t].seen.Keys == goal
  }

  lemma {:induction false} LocksGoal(db: Database, t: nat, goal: set<Id>) returns (d: Database)
    requires Inv(db) && Lockable(db, t, goal)
    ensures Reaches(db, d) && Inv(d) && HasLocked(db, t, goal, d)
    decreases goal - db.txns[t].seen.Keys
  {
    if goal == db.txns[t].seen.Keys {
      d := db;
      ReachesSelf(db);
    } else {
      hide Inv, Reaches, CanLock, Can, Do, Lockable, LocksOne, HasLocked;
      var item := PickRow(db, t, goal);
      LockStep(db, t, item);
      var c := Do(db, Runs(t, item));
      ReachesNext(db, Runs(t, item));
      StillLockable(db, t, goal, item, c);
      d := LocksGoal(c, t, goal);
      ReachesJoin(db, c, d);
      ThenLocks(db, t, item, c, goal, d);
    }
  }

  lemma PickRow(db: Database, t: nat, goal: set<Id>) returns (item: Id)
    requires Lockable(db, t, goal) && goal != db.txns[t].seen.Keys
    ensures item in goal && item !in db.txns[t].seen && CanLock(db, t, item)
  {
    hide Wanted, Free;
    var left := goal - db.txns[t].seen.Keys;
    assert left != {} by {
      assert goal == db.txns[t].seen.Keys + left;
    }
    item := Least(left);
    assert item in Remaining(db, t);
  }

  lemma StillLockable(db: Database, t: nat, goal: set<Id>, item: Id, c: Database)
    requires Lockable(db, t, goal) && item in goal && item !in db.txns[t].seen && LocksOne(db, t, item, c)
    ensures Lockable(c, t, goal)
    ensures goal - c.txns[t].seen.Keys < goal - db.txns[t].seen.Keys
  {
    SameWants(db.shop.menu, c.shop.menu, db.txns[t]);
    WantedBySeen(c.shop.menu, db.txns[t], c.txns[t].seen);
    hide Wanted;
    assert item in goal - db.txns[t].seen.Keys && item !in goal - c.txns[t].seen.Keys;
  }

  lemma ThenLocks(db: Database, t: nat, item: Id, c: Database, goal: set<Id>, d: Database)
    requires LocksOne(db, t, item, c) && HasLocked(c, t, goal, d)
    ensures HasLocked(db, t, goal, d)
  {
  }

  /** The call starts and locks or finds its order; it has no item row yet. */
  lemma Opening(db: Database, call: Call)
    requires Inv(db) && Opens(db, call)
    requires forall u :: 0 <= u < |db.txns| ==> db.txns[u].Finished() || db.txns[u].call.Order() != call.Order()
    ensures var d := db.(txns := db.txns + [Opened(db, call)]); Reaches(db, d) && Inv(d)
  {
    hide Inv, Reaches, V.ValidCommand;
    var n := |db.txns|;
    var arrived := Arrive(db, call);
    var entered := db.(txns := db.txns + [Txn(call, Entered, map[])]);
    var d := db.(txns := db.txns + [Opened(db, call)]);
    OpRefines(db, Begins(call));
    ReachesNext(db, Begins(call));
    Facts(arrived, n);
    assert arrived.txns[n := entered.txns[n]] == entered.txns;
    assert CanAdvance(arrived, n, 0) && Do(arrived, Runs(n, 0)) == entered;
    OpRefines(arrived, Runs(n, 0));
    ReachesNext(arrived, Runs(n, 0));
    Facts(entered, n);
    assert entered.txns[n := d.txns[n]] == d.txns;
    assert CanAdvance(entered, n, 0) && Do(entered, Runs(n, 0)) == d;
    OpRefines(entered, Runs(n, 0));
    ReachesNext(entered, Runs(n, 0));
    ReachesJoin(db, arrived, entered);
    ReachesJoin(db, entered, d);
  }

  lemma CycleOpens(db: Database, calls: set<Call>, cycle: seq<Link>)
    requires Cycle(db, calls, cycle)
    ensures forall k :: 0 <= k < |cycle| ==> Opens(db, cycle[k].call)
  {
  }

  /** The first `n` calls of a cycle have locked what they need, and nothing else has happened. */
  ghost predicate Stands(db: Database, cycle: seq<Link>, n: nat, d: Database)
    requires n <= |cycle| && forall k :: 0 <= k < |cycle| ==> Opens(db, cycle[k].call)
  {
    && Alike(db, d) && Joined(db, d, n)
    && forall k: nat :: k < n ==> Took(db, cycle, d, k)
  }

  /** So many transactions have come after those that have ended. */
  ghost predicate Joined(db: Database, d: Database, n: nat) {
    |d.txns| == |db.txns| + n && forall t :: 0 <= t < |db.txns| ==> d.txns[t] == db.txns[t]
  }

  ghost predicate Took(db: Database, cycle: seq<Link>, d: Database, k: nat)
    requires k < |cycle| && Opens(db, cycle[k].call) && |db.txns| + k < |d.txns|
  {
    var txn := d.txns[|db.txns| + k];
    txn == Opened(db, cycle[k].call).(seen := txn.seen) && txn.seen.Keys == Taken(db, cycle[k])
  }

  lemma {:induction false} CycleStands(db: Database, calls: set<Call>, cycle: seq<Link>, n: nat) returns (d: Database)
    requires Quiet(db) && Cycle(db, calls, cycle) && n <= |cycle|
    ensures Reaches(db, d) && Inv(d) && Stands(db, cycle, n, d)
    decreases n
  {
    hide Inv, Reaches;
    if n == 0 {
      d := db;
      ReachesSelf(db);
    } else {
      var c := CycleStands(db, calls, cycle, n - 1);
      d := NextStands(db, calls, cycle, n - 1, c);
      ReachesJoin(db, c, d);
    }
  }

  lemma NextStands(db: Database, calls: set<Call>, cycle: seq<Link>, n: nat, c: Database) returns (d: Database)
    requires Quiet(db) && Cycle(db, calls, cycle) && n < |cycle| && Inv(c) && Stands(db, cycle, n, c)
    ensures Reaches(c, d) && Inv(d) && Stands(db, cycle, n + 1, d)
  {
    var link := cycle[n];
    OrderIsFree(db, calls, cycle, n, c);
    AlikeRows(db, c, link.call);
    CycleOpens(db, calls, cycle);
    hide Inv, Reaches, Rows, Wanted, V.ValidCommand, Cycle, Lockable, HasLocked;
    Opening(c, link.call);
    var joined := c.(txns := c.txns + [Opened(db, link.call)]);
    forall k: nat | k < n ensures Took(db, cycle, joined, k) {
      assert Took(db, cycle, c, k);
    }
    hide Took, Opens, Taken;
    NextIsLockable(db, calls, cycle, n, joined);
    d := LocksGoal(joined, |db.txns| + n, Taken(db, link));
    ReachesJoin(c, joined, d);
    NowStands(db, cycle, n, joined, d);
  }

  lemma NowStands(db: Database, cycle: seq<Link>, n: nat, joined: Database, d: Database)
    requires n < |cycle| && forall k :: 0 <= k < |cycle| ==> Opens(db, cycle[k].call)
    requires Alike(db, joined) && Joined(db, joined, n + 1)
    requires forall k: nat :: k < n ==> Took(db, cycle, joined, k)
    requires joined.txns[|db.txns| + n] == Opened(db, cycle[n].call)
    requires HasLocked(joined, |db.txns| + n, Taken(db, cycle[n]), d)
    ensures Stands(db, cycle, n + 1, d)
  {
    hide Opens, Taken;
    forall k: nat | k < n ensures Took(db, cycle, d, k) {
      assert Took(db, cycle, joined, k);
    }
  }

  lemma OrderIsFree(db: Database, calls: set<Call>, cycle: seq<Link>, n: nat, c: Database)
    requires Quiet(db) && Cycle(db, calls, cycle) && n < |cycle| && Stands(db, cycle, n, c)
    ensures forall u :: 0 <= u < |c.txns| ==> c.txns[u].Finished() || c.txns[u].call.Order() != cycle[n].call.Order()
  {
    CycleOpens(db, calls, cycle);
    hide Inv, Opens, Taken, Fits, Linked, Alike;
    forall u | |db.txns| <= u < |c.txns| ensures c.txns[u].call.Order() != cycle[n].call.Order() {
      assert Took(db, cycle, c, u - |db.txns|);
      assert Apart(db, cycle[u - |db.txns|], cycle[n]);
    }
  }

  lemma NextIsLockable(db: Database, calls: set<Call>, cycle: seq<Link>, n: nat, c: Database)
    requires Quiet(db) && Cycle(db, calls, cycle) && n < |cycle| && Alike(db, c) && Joined(db, c, n + 1)
    requires forall k: nat :: k < n ==> Took(db, cycle, c, k)
    requires c.txns[|db.txns| + n] == Opened(db, cycle[n].call)
    ensures Lockable(c, |db.txns| + n, Taken(db, cycle[n]))
  {
    OthersTookNone(db, calls, cycle, n, c);
    AlikeRows(db, c, cycle[n].call);
    TakenIsLow(db, calls, cycle[n]);
    assert Wanted(c.shop.menu, c.txns[|db.txns| + n]) == Rows(db, cycle[n].call);
    assert Opened(db, cycle[n].call).seen.Keys == {};
    hide Inv, Wanted, Opens, Rows, Taken, Cycle, Free, Took, Opened;
  }

  lemma OthersTookNone(db: Database, calls: set<Call>, cycle: seq<Link>, n: nat, c: Database)
    requires Quiet(db) && Cycle(db, calls, cycle) && n < |cycle| && Joined(db, c, n + 1)
    requires forall k: nat :: k < n ==> Took(db, cycle, c, k)
    requires c.txns[|db.txns| + n] == Opened(db, cycle[n].call)
    ensures forall i :: i in Taken(db, cycle[n]) ==> Free(c, i)
  {
    CycleOpens(db, calls, cycle);
    hide Inv, Taken, Opens, Fits;
    forall i, u | i in Taken(db, cycle[n]) && 0 <= u < |c.txns| ensures i !in c.txns[u].seen {
      if u < |db.txns| {
        EndedHoldsNothing(db, u);
      } else if u < |db.txns| + n {
        assert Apart(db, cycle[u - |db.txns|], cycle[n]) && Took(db, cycle, c, u - |db.txns|);
      }
    }
  }

  lemma TakenIsLow(db: Database, calls: set<Call>, link: Link)
    requires Fits(db, calls, link)
    ensures Taken(db, link) <= Rows(db, link.call)
    ensures link.call.Decide? ==>
      forall a, b :: a in Taken(db, link) && b in Rows(db, link.call) && b !in Taken(db, link) ==> a < b
  {
    hide Rows, Opens;
  }

  // Everybody in the cycle waits for the next one, whatever else the cancellations may lock meanwhile.

  ghost predicate Stuck(db: Database, cycle: seq<Link>, d: Database)
    requires forall k :: 0 <= k < |cycle| ==> Opens(db, cycle[k].call)
  {
    && Alike(db, d) && Joined(db, d, |cycle|)
    && forall k: nat :: k < |cycle| ==> HoldsOnAt(db, cycle, d, k)
  }

  ghost predicate HoldsOnAt(db: Database, cycle: seq<Link>, d: Database, k: nat)
    requires k < |cycle| && Opens(db, cycle[k].call) && |db.txns| + k < |d.txns|
  {
    HoldsOn(db, cycle[k], d.txns[|db.txns| + k])
  }

  ghost predicate HoldsOn(db: Database, link: Link, txn: Txn)
    requires Opens(db, link.call)
  {
    && txn == Opened(db, link.call).(seen := txn.seen)
    && Taken(db, link) <= txn.seen.Keys && (link.call.Decide? ==> txn.seen.Keys == Taken(db, link))
  }

  lemma StandingIsStuck(db: Database, cycle: seq<Link>, d: Database)
    requires forall k :: 0 <= k < |cycle| ==> Opens(db, cycle[k].call)
    requires Stands(db, cycle, |cycle|, d)
    ensures Stuck(db, cycle, d)
  {
    hide Taken, Opened, Opens;
    forall k: nat | k < |cycle| ensures HoldsOnAt(db, cycle, d, k) {
      assert Took(db, cycle, d, k);
    }
  }

  function After(n: nat, k: nat): (u: nat)
    requires k < n
    ensures u < n && Before(n, u) == k
  {
    if k == n - 1 then 0 else k + 1
  }

  ghost predicate RowsSeparate(txns: seq<Txn>) {
    forall t, u :: 0 <= t < |txns| && 0 <= u < |txns| && t != u ==> txns[t].seen.Keys !! txns[u].seen.Keys
  }

  lemma RowsAreSeparate(db: Database)
    requires Inv(db)
    ensures RowsSeparate(db.txns)
  {
    hide Proceeds, LocksAscend, RowsMatch, SoundLines;
  }

  lemma NextHolds(db: Database, calls: set<Call>, cycle: seq<Link>, d: Database, k: nat)
    requires Cycle(db, calls, cycle) && Stuck(db, cycle, d) && k < |cycle|
    ensures After(|cycle|, k) != k && cycle[k].awaits in d.txns[|db.txns| + After(|cycle|, k)].seen
  {
    var u := After(|cycle|, k);
    assert Linked(cycle, u) && Fits(db, calls, cycle[u]) && HoldsOnAt(db, cycle, d, u);
    hide Taken, Opens, Opened, Rows, Cycle;
  }

  /** The row that a member awaits is wanted and held by the next one. */
  lemma AwaitedIsHeld(db: Database, calls: set<Call>, cycle: seq<Link>, d: Database, k: nat)
    requires Cycle(db, calls, cycle) && Stuck(db, cycle, d) && RowsSeparate(d.txns) && k < |cycle|
    ensures var t := |db.txns| + k;
      && cycle[k].awaits in Remaining(d, t) && !Free(d, cycle[k].awaits)
      && d.txns[t].call == cycle[k].call && (d.txns[t].phase.Scanning? || d.txns[t].phase.Releasing?)
  {
    NextHolds(db, calls, cycle, d, k);
    var t := |db.txns| + k;
    assert Fits(db, calls, cycle[k]) && HoldsOnAt(db, cycle, d, k);
    hide Cycle, Opens, Taken;
    AlikeRows(db, d, cycle[k].call);
    WantedBySeen(d.shop.menu, Opened(db, cycle[k].call), d.txns[t].seen);
    hide Wanted;
  }

  /** A decision has all its rows below the one it awaits. */
  lemma DecisionAwaits(db: Database, calls: set<Call>, link: Link, d: Database, k: nat)
    requires Fits(db, calls, link) && link.call.Decide? && Alike(db, d) && k < |d.txns|
    requires HoldsOn(db, link, d.txns[k]) && link.awaits in Remaining(d, k)
    ensures Least(Remaining(d, k)) == link.awaits
  {
    AlikeRows(db, d, link.call);
    WantedBySeen(d.shop.menu, Opened(db, link.call), d.txns[k].seen);
    TakenIsLow(db, calls, link);
    hide Wanted, Opens, Opened;
    assert Remaining(d, k) == Rows(db, link.call) - Taken(db, link);
  }

  /** A decision in the cycle cannot go on; a cancellation can only lock one more row. */
  lemma OnlyLocksOne(db: Database, calls: set<Call>, cycle: seq<Link>, d: Database, t: nat, item: Id)
    requires Cycle(db, calls, cycle) && Stuck(db, cycle, d) && RowsSeparate(d.txns)
    requires CanAdvance(d, t, item) && t >= |db.txns|
    ensures t < |db.txns| + |cycle| && !d.txns[t].call.Decide? && CanLock(d, t, item) && Free(d, item)
  {
    var k := t - |db.txns|;
    hide Opens, Apart, Alike, RowsSeparate, Rows, Taken, Linked, Remaining;
    AwaitedIsHeld(db, calls, cycle, d, k);
    assert Fits(db, calls, cycle[k]) && HoldsOnAt(db, cycle, d, k);
    hide Fits, Cycle;
    var link := cycle[k];
    if link.call.Decide? {
      DecisionAwaits(db, calls, link, d, t);
    }
    hide Free;
  }

  ghost function FreeRows(db: Database): set<Id> {
    set i | i in db.shop.menu && Free(db, i)
  }

  lemma StaysStuck(db: Database, cycle: seq<Link>, d: Database, t: nat, item: Id, e: Database)
    requires forall k :: 0 <= k < |cycle| ==> Opens(db, cycle[k].call)
    requires Stuck(db, cycle, d) && |db.txns| <= t < |d.txns| && !d.txns[t].call.Decide? && LocksOne(d, t, item, e)
    requires Free(d, item)
    ensures Stuck(db, cycle, e) && FreeRows(e) < FreeRows(d)
  {
    hide Taken, Opens;
    forall k: nat | k < |cycle| ensures HoldsOnAt(db, cycle, e, k) {
      assert HoldsOnAt(db, cycle, d, k);
    }
    assert item in e.txns[t].seen && item in FreeRows(d) && item !in FreeRows(e);
    forall i | Free(e, i) ensures Free(d, i) {
      assert forall u :: 0 <= u < |d.txns| ==> d.txns[u].seen.Keys <= e.txns[u].seen.Keys;
    }
  }

  lemma StuckStep(db: Database, calls: set<Call>, cycle: seq<Link>, d: Database, t: nat, item: Id) returns (e: Database)
    requires Quiet(db) && Cycle(db, calls, cycle) && Stuck(db, cycle, d) && Inv(d) && CanAdvance(d, t, item)
    ensures Reaches(d, e) && Inv(e) && Stuck(db, cycle, e) && FreeRows(e) < FreeRows(d)
  {
    RowsAreSeparate(d);
    Stopped(d, t, item);
    assert t >= |db.txns|;
    OnlyLocksOne(db, calls, cycle, d, t, item);
    hide Inv, Reaches, CanAdvance, CanLock, LocksOne, FreeRows, RowsSeparate, Can, Do, Fits, Apart, HoldsOn, Free;
    LockStep(d, t, item);
    e := Do(d, Runs(t, item));
    ReachesNext(d, Runs(t, item));
    CycleOpens(db, calls, cycle);
    StaysStuck(db, cycle, d, t, item, e);
  }

  lemma Unblocked(db: Database, calls: set<Call>, cycle: seq<Link>, d: Database) returns (t: nat, item: Id)
    requires Cycle(db, calls, cycle) && Stuck(db, cycle, d) && Inv(d) && !Deadlocked(d)
    ensures CanAdvance(d, t, item)
  {
    hide CanAdvance, Free, Remaining;
    RowsAreSeparate(d);
    hide Inv, RowsSeparate;
    AwaitedIsHeld(db, calls, cycle, d, 0);
    CycleOpens(db, calls, cycle);
    hide Cycle, HoldsOn, Alike, Opens;
    assert !d.txns[|db.txns|].Finished();
    t, item :| CanAdvance(d, t, item);
  }

  lemma {:induction false} StuckEnds(db: Database, calls: set<Call>, cycle: seq<Link>, d: Database)
    returns (e: Database)
    requires Quiet(db) && Cycle(db, calls, cycle) && Stuck(db, cycle, d) && Inv(d)
    ensures Reaches(d, e) && Deadlocked(e) && Stuck(db, cycle, e)
    decreases FreeRows(d)
  {
    CycleOpens(db, calls, cycle);
    hide Inv, Reaches, CanAdvance, FreeRows, Stuck, Cycle, Deadlocked;
    if Deadlocked(d) {
      e := d;
      ReachesSelf(d);
    } else {
      var t, item := Unblocked(db, calls, cycle, d);
      var c := StuckStep(db, calls, cycle, d, t, item);
      e := StuckEnds(db, calls, cycle, c);
      ReachesJoin(d, c, e);
    }
  }

  lemma CycleDeadlocks(db: Database, calls: set<Call>, cycle: seq<Link>)
    requires Quiet(db) && Makes(db, calls) && Cycle(db, calls, cycle)
    ensures MayDeadlock(db, calls)
  {
    hide Deadlocked, Rows, Taken;
    var c := CycleStands(db, calls, cycle, |cycle|);
    StandingIsStuck(db, cycle, c);
    var d := StuckEnds(db, calls, cycle, c);
    ReachesJoin(db, c, d);
    StuckMakes(db, calls, cycle, d);
  }

  lemma StuckMakes(db: Database, calls: set<Call>, cycle: seq<Link>, d: Database)
    requires Makes(db, calls) && Cycle(db, calls, cycle) && Stuck(db, cycle, d)
    ensures Makes(d, calls)
  {
    CycleOpens(db, calls, cycle);
    hide Taken, Opens;
    forall t | |db.txns| <= t < |d.txns| ensures d.txns[t].call in calls {
      assert HoldsOnAt(db, cycle, d, t - |db.txns|);
      assert Fits(db, calls, cycle[t - |db.txns|]);
    }
  }
}
