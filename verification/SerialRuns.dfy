/** The converse of serializability: calls performed one after another are a run of the interleaved transactions,
    since a transaction that is alone always completes. */
module SerialRuns {
  import opened Types
  import opened Locking
  import opened Interleaving
  import V = Venue

  ghost predicate Reaches(db: Database, d: Database) {
    exists ops :: Run(db, ops, d)
  }

  lemma {:induction false} RunsJoin(db: Database, ops: seq<Op>, c: Database, more: seq<Op>, d: Database)
    requires Run(db, ops, c) && Run(c, more, d)
    ensures Run(db, ops + more, d)
    decreases |ops|
  {
    hide Can, Do;
    if ops == [] {
      assert ops + more == more;
    } else {
      RunsJoin(Do(db, ops[0]), ops[1..], c, more, d);
      assert (ops + more)[1..] == ops[1..] + more;
    }
  }

  lemma ReachesJoin(db: Database, c: Database, d: Database)
    requires Reaches(db, c) && Reaches(c, d)
    ensures Reaches(db, d)
  {
    var ops :| Run(db, ops, c);
    var more :| Run(c, more, d);
    RunsJoin(db, ops, c, more, d);
  }

  lemma ReachesSelf(db: Database)
    ensures Reaches(db, db)
  {
    assert Run(db, [], db);
  }

  lemma ReachesNext(db: Database, op: Op)
    requires Can(db, op)
    ensures Reaches(db, Do(db, op))
  {
    hide Can, Do;
    assert Run(Do(db, op), [], Do(db, op)) && [op][1..] == [];
    assert Run(db, [op], Do(db, op));
  }

  /** Orders, settings and the kind of every row are what they were. */
  ghost predicate Alike(db: Database, d: Database) {
    && d.orders == db.orders && d.shop.(menu := db.shop.menu) == db.shop
    && SameKinds(db.shop.menu, d.shop.menu)
  }

  ghost predicate SameKinds(menu: V.Menu, after: V.Menu) {
    && after.Keys == menu.Keys
    && forall i :: i in menu ==> (after[i].stock.Some? <==> menu[i].stock.Some?)
  }

  lemma WantedBySeen(menu: V.Menu, txn: Txn, seen: V.Menu)
    ensures Wanted(menu, txn.(seen := seen)) == Wanted(menu, txn)
  {
  }

  ghost predicate CanLock(db: Database, t: nat, item: Id) {
    && t < |db.txns| && item in Remaining(db, t) && Free(db, item)
    && (db.txns[t].phase.Scanning? || db.txns[t].phase.Releasing?)
    && (db.txns[t].phase.Scanning? ==> forall i :: i in Remaining(db, t) ==> item <= i)
  }

  /** The same database but for one more row that one transaction has locked. */
  ghost predicate LocksOne(db: Database, t: nat, item: Id, d: Database) {
    && Alike(db, d) && t < |db.txns| && item in db.shop.menu
    && d.txns == db.txns[t := db.txns[t].(seen := db.txns[t].seen[item := db.shop.menu[item]])]
  }

  lemma LockStep(db: Database, t: nat, item: Id)
    requires Inv(db) && CanLock(db, t, item)
    ensures CanAdvance(db, t, item) && Can(db, Runs(t, item))
    ensures Inv(Do(db, Runs(t, item))) && LocksOne(db, t, item, Do(db, Runs(t, item)))
  {
    hide Inv, V.ValidCommand, V.Judge, SoundLines, LocksAscend, RowsMatch, Free, Given, Run;
    Facts(db, t);
    OpRefines(db, Runs(t, item));
    GivenAlike(db.shop.menu, db.txns[t].Lines(), item);
  }

  lemma GivenAlike(menu: V.Menu, lines: seq<Line>, item: Id)
    requires item in menu
    ensures Given(menu, lines, item).Keys == menu.Keys
    ensures forall i :: i in menu ==> (Given(menu, lines, item)[i].stock.Some? <==> menu[i].stock.Some?)
  {
    hide V.Joined;
  }

  /** Every transaction has ended. */
  ghost predicate Quiet(db: Database) {
    Inv(db) && forall t :: 0 <= t < |db.txns| ==> db.txns[t].Finished()
  }

  lemma EndedHoldsNothing(db: Database, t: nat)
    requires Inv(db) && t < |db.txns| && db.txns[t].Finished()
    ensures db.txns[t].seen == map[]
  {
    hide V.ValidCommand, V.Judge, LocksAscend, RowsMatch;
    assert Proceeds(db, db.txns[t]);
  }

  lemma RestIsQuiet(db: Database)
    requires AtRest(db)
    ensures Quiet(db) && Visible(db) == db.shop
  {
    AtRestIsSound(db);
    hide Inv, SoundLines;
  }

  // ---------- a lone transaction completes ----------

  /** All others have ended. */
  ghost predicate Alone(db: Database, t: nat) {
    Inv(db) && t < |db.txns| && forall u :: 0 <= u < |db.txns| && u != t ==> db.txns[u].Finished()
  }

  lemma AloneIsFree(db: Database, t: nat, item: Id)
    requires Alone(db, t) && item !in db.txns[t].seen
    ensures Free(db, item)
  {
    hide Inv;
    forall u | 0 <= u < |db.txns| ensures item !in db.txns[u].seen {
      if u != t {
        EndedHoldsNothing(db, u);
      }
    }
  }

  function Rank(phase: Phase): nat {
    match phase {
      case Arrived => 3
      case Entered => 2
      case Scanning => 1
      case Releasing(_) => 1
      case _ => 0
    }
  }

  /** How far a reservation has come, from behind. */
  function Unreserved(txn: Txn): int {
    |txn.Lines()| - Reserved(txn)
  }

  /** The transaction has completed or is nearer to its end. */
  ghost predicate Nearer(db: Database, t: nat, c: Database) {
    && t < |db.txns| == |c.txns| && c.txns[t].call == db.txns[t].call && !c.txns[t].phase.Aborted?
    && (|| c.txns[t].phase.Done?
        || Rank(c.txns[t].phase) < Rank(db.txns[t].phase)
        || (Rank(c.txns[t].phase) == Rank(db.txns[t].phase) &&
              (|| Remaining(c, t) < Remaining(db, t)
               || (Remaining(c, t) == Remaining(db, t) && 0 <= Unreserved(c.txns[t]) < Unreserved(db.txns[t])))))
  }

  lemma LockIsNearer(db: Database, t: nat, item: Id, c: Database)
    requires CanLock(db, t, item) && LocksOne(db, t, item, c)
    ensures Nearer(db, t, c)
  {
    SameWants(db.shop.menu, c.shop.menu, db.txns[t]);
    WantedBySeen(c.shop.menu, db.txns[t], c.txns[t].seen);
    hide Wanted, Free;
    assert item in Remaining(db, t) && item !in Remaining(c, t);
  }

  lemma TakeIsNearer(db: Database, t: nat, item: Id)
    requires CanAdvance(db, t, item) && db.txns[t].call.Decide? && WellFormed(db, db.txns[t])
    requires db.txns[t].phase.Reserving? && db.txns[t].phase.next < |db.txns[t].Lines()|
    ensures Nearer(db, t, Advance(db, t, item))
  {
    var c := Advance(db, t, item);
    SameWants(db.shop.menu, c.shop.menu, db.txns[t]);
    assert Wanted(c.shop.menu, c.txns[t]) == Wanted(c.shop.menu, db.txns[t]);
    hide Wanted, V.Judge;
  }

  /** Any statement but the locking and taking ones ends a phase. */
  lemma EndIsNearer(db: Database, t: nat, item: Id)
    requires CanAdvance(db, t, item) && Proceeds(db, db.txns[t])
    requires db.txns[t].phase.Scanning? || db.txns[t].phase.Releasing? ==> Remaining(db, t) == {}
    requires db.txns[t].phase.Reserving? ==> db.txns[t].phase.next == |db.txns[t].Lines()|
    ensures Nearer(db, t, Advance(db, t, item))
  {
    hide V.Judge, V.ValidCommand, Remaining, V.Take, Given, V.Transition;
  }

  lemma OneStep(db: Database, t: nat) returns (item: Id)
    requires Alone(db, t) && !db.txns[t].Finished()
    ensures CanAdvance(db, t, item) && Can(db, Runs(t, item)) && Nearer(db, t, Do(db, Runs(t, item)))
  {
    Facts(db, t);
    hide Inv, Nearer, Advance, LocksAscend, RowsMatch, Remaining;
    var phase := db.txns[t].phase;
    if (phase.Scanning? || phase.Releasing?) && Remaining(db, t) != {} {
      item := NextRow(db, t);
      NextCanLock(db, t);
      LockStep(db, t, item);
      LockIsNearer(db, t, item, Do(db, Runs(t, item)));
    } else {
      item := 0;
      NeedsNoRow(db, t);
      if phase.Reserving? && phase.next < |db.txns[t].Lines()| {
        TakeIsNearer(db, t, item);
      } else {
        EndIsNearer(db, t, item);
      }
    }
  }

  lemma NextCanLock(db: Database, t: nat)
    requires Alone(db, t) && Remaining(db, t) != {} && (db.txns[t].phase.Scanning? || db.txns[t].phase.Releasing?)
    ensures CanLock(db, t, NextRow(db, t))
  {
    hide Inv, Wanted;
    AloneIsFree(db, t, NextRow(db, t));
  }

  lemma NeedsNoRow(db: Database, t: nat)
    requires Alone(db, t) && !db.txns[t].Finished()
    requires db.txns[t].phase.Scanning? || db.txns[t].phase.Releasing? ==> Remaining(db, t) == {}
    ensures CanAdvance(db, t, 0)
  {
    hide Inv, Remaining;
  }

  lemma StaysAlone(db: Database, t: nat, item: Id)
    requires Alone(db, t) && Can(db, Runs(t, item))
    ensures Alone(Do(db, Runs(t, item)), t)
  {
    OpRefines(db, Runs(t, item));
    hide Inv, CanAdvance;
    var c := Do(db, Runs(t, item));
    forall u | 0 <= u < |c.txns| && u != t ensures c.txns[u].Finished() {
      assert c.txns[t := db.txns[t]][u] == db.txns[u];
    }
  }

  ghost predicate SameOthers(db: Database, d: Database, t: nat) {
    && t < |db.txns| == |d.txns| && d.txns[t].call == db.txns[t].call
    && forall u :: 0 <= u < |db.txns| && u != t ==> d.txns[u] == db.txns[u]
  }

  lemma StepKeepsOthers(db: Database, t: nat, item: Id)
    requires Can(db, Runs(t, item)) && Nearer(db, t, Do(db, Runs(t, item)))
    ensures SameOthers(db, Do(db, Runs(t, item)), t)
  {
    hide CanAdvance, Remaining;
    var c := Do(db, Runs(t, item));
    forall u | 0 <= u < |db.txns| && u != t ensures c.txns[u] == db.txns[u] {
      assert c.txns[t := db.txns[t]][u] == db.txns[u];
    }
  }

  /** A transaction that is alone completes, with the effect and the reply of one uninterrupted call. */
  lemma {:induction false} RunsAlone(db: Database, t: nat) returns (d: Database)
    requires Alone(db, t) && !db.txns[t].Finished()
    ensures Reaches(db, d) && Inv(d) && SameOthers(db, d, t) && d.txns[t].phase.Done?
    ensures Perform(Visible(db), db.orders, db.txns[t].call) ==
      Outcome(Visible(d), d.orders, d.txns[t].phase.reply)
    decreases Rank(db.txns[t].phase), Remaining(db, t), Unreserved(db.txns[t])
  {
    var item := OneStep(db, t);
    var c := Do(db, Runs(t, item));
    hide Inv, Reaches, Perform, Visible, CanAdvance, Can, Do, Remaining;
    StaysAlone(db, t, item);
    OpRefines(db, Runs(t, item));
    ReachesNext(db, Runs(t, item));
    StepKeepsOthers(db, t, item);
    if c.txns[t].phase.Done? {
      d := c;
    } else {
      d := RunsAlone(c, t);
      ReachesJoin(db, c, d);
    }
  }

  // ---------- serial runs ----------

  /** Transactions are never forgotten, so these are all calls that a run has made. */
  ghost predicate Makes(db: Database, calls: set<Call>) {
    forall t :: 0 <= t < |db.txns| ==> db.txns[t].call in calls
  }

  /** The calls of a serial run come from these and may be made. */
  ghost predicate Made(done: seq<(Call, Reply)>, calls: set<Call>) {
    forall c :: c in done ==> c.0 in calls && (c.0.Decide? ==> V.ValidCommand(c.0.command))
  }

  lemma QuietShowsAll(db: Database)
    requires Quiet(db)
    ensures Visible(db) == db.shop
  {
    forall t: nat, i ensures !Holder(db, t, i) {
      if t < |db.txns| {
        EndedHoldsNothing(db, t);
      }
    }
    hide Inv;
  }

  lemma CallRuns(db: Database, call: Call) returns (d: Database)
    requires Quiet(db) && (call.Decide? ==> V.ValidCommand(call.command))
    ensures Reaches(db, d) && Quiet(d) && |d.txns| == |db.txns| + 1 && d.txns[|db.txns|].call == call
    ensures forall t :: 0 <= t < |db.txns| ==> d.txns[t] == db.txns[t]
    ensures d.txns[|db.txns|].phase.Done?
    ensures Perform(db.shop, db.orders, call) == Outcome(d.shop, d.orders, d.txns[|db.txns|].phase.reply)
  {
    hide Inv, Reaches, Perform, V.ValidCommand, Visible;
    var n, c := |db.txns|, Do(db, Begins(call));
    OpRefines(db, Begins(call));
    ReachesNext(db, Begins(call));
    d := RunsAlone(c, n);
    ReachesJoin(db, c, d);
    QuietShowsAll(db);
    QuietShowsAll(d);
  }

  /** Whatever calls do one after another, some run of interleaved transactions does. */
  lemma {:induction false} SerialIsRun(db: Database, calls: set<Call>, done: seq<(Call, Reply)>,
                                       after: V.Shop, result: map<Id, V.Order>) returns (d: Database)
    requires Quiet(db) && Makes(db, calls) && Made(done, calls) && Serial(db.shop, db.orders, done, after, result)
    ensures Reaches(db, d) && Quiet(d) && Makes(d, calls) && d.shop == after && d.orders == result
    decreases |done|
  {
    hide Quiet, Reaches, Perform, V.ValidCommand;
    if done == [] {
      d := db;
      ReachesSelf(db);
    } else {
      assert done[0] in done;
      var c := CallRuns(db, done[0].0);
      d := SerialIsRun(c, calls, done[1..], after, result);
      ReachesJoin(db, c, d);
    }
  }
}
