/** What the invariant says about the two databases of one order. */
module Agreement {
  import opened Types
  import opened Protocol
  import opened Progress
  import P = Platform
  import V = Venue
  import W = Worker

  /** Nothing is left to deliver in either outbox. */
  ghost predicate Quiescent(c: Cell) {
    && (forall k :: 0 <= k < |c.p.jobs| ==> !c.p.jobs[k].Open())
    && (c.v.Some? ==> forall k :: 0 <= k < |c.v.value.callbacks| ==> !c.v.value.callbacks[k].Open())
  }

  /** Both sides show one status; an order the venue never received was cancelled locally. */
  predicate Agrees(c: Cell) {
    match c.v {
      case None => c.p.row.status == Cancelled
      case Some(v) => c.p.row.status == v.status
    }
  }

  /** The venue's status is the replay of everything it issued. */
  lemma VenueReplaysItsLog(v: V.Order)
    requires V.Inv(v) && v.status != Rejected
    ensures Replay(V.Log(v)) == v.status
  {
    ReplayOfKinds(V.Log(v), v.status);
    assert V.LogOf(v.status)[..|V.Log(v)|] == V.LogOf(v.status);
  }

  /** The platform replays a prefix of the venue's log; only a cancellation that was confirmed by
      the HTTP reply may run ahead of its own callback. */
  lemma LaggingReplay(c: Cell)
    requires Inv(c)
    ensures c.v.Some? ==> c.p.row.sequence <= |V.Log(c.v.value)| && c.p.received == V.Log(c.v.value)[..c.p.row.sequence]
    ensures WasAccepted(c.p) ==>
      && c.v.Some? && c.v.value.decision.Accept?
      && (|| c.p.row.status == Replay(V.Log(c.v.value)[..c.p.row.sequence])
          || (&& c.p.row.status == Cancelled && c.p.row.sequence == 0
              && |V.Log(c.v.value)| == 1 && V.Log(c.v.value)[0].kind == OrderCancelled))
    ensures !WasAccepted(c.p) ==> c.p.row.sequence == 0
    ensures c.p.row.status in {Pending, Rejected, Expired} ==> c.p.row.sequence == 0
  {
  }

  /** At quiescence the two statuses agree exactly when the confirmation did not expire; then the
      venue's order, if any, has issued no event. */
  lemma AgreementAtQuiescence(c: Cell)
    requires Inv(c) && Quiescent(c)
    ensures Agrees(c) <==> c.p.row.status != Expired
    ensures c.p.row.status == Expired && c.v.Some? ==> c.v.value.callbacks == []
  {
    assert !c.p.jobs[0].Open();
    if c.v.Some? {
      var v := c.v.value;
      assert |c.p.received| == |v.callbacks| by {
        if |v.callbacks| > 0 {
          assert !v.callbacks[|v.callbacks| - 1].Open();
        }
      }
      assert c.p.received == V.Log(v);
      if v.status != Rejected {
        VenueReplaysItsLog(v);
      }
    }
  }

  lemma PathCons(c: Cell, w: World, a: Action, steps: seq<(World, Action)>, d: Cell)
    requires Enabled(c, w, a) && Path(Step(c, w, a).cell, steps, d)
    ensures Path(c, [(w, a)] + steps, d)
  {
    hide Enabled, Step;
  }

  lemma PathEnds(c: Cell)
    ensures Path(c, [], c)
  {
  }

  /** Only the clock moves on, and every answer is lost in a way that allows a retry. */
  ghost predicate AnswersAreLost(w: World, steps: seq<(World, Action)>) {
    forall s :: s in steps ==>
      && s.0 == w.(now := s.0.now) && w.now <= s.0.now
      && (s.1.FinishConfirmation? ==> s.1.delivery == W.Undelivered(true))
  }

  /** The venue has accepted, and the worker's call has failed. */
  ghost predicate Unanswered(c: Cell, cl: P.Claim, w: World, command: OrderCommand) {
    && Inv(c) && c.p.row.status == Pending && P.Owns(c.p, 0, cl.token) && c.p.jobs[0].kind.ConfirmOrder?
    && |c.p.jobs| == 1 && cl.job == 0 && cl.kind.ConfirmOrder? && cl.deadline == c.p.row.deadline
    && c.net.claims == {cl}
    && c.v.Some? && c.v.value.status == Accepted && c.v.value.lines == command.lines && c.v.value.callbacks == []
  }

  lemma ReplyIsLost(venue: Id, command: OrderCommand, amount: int, currency: Currency, deadline: int,
                    w: World, token: Id, newId: Id) returns (cl: P.Claim, c: Cell, steps: seq<(World, Action)>)
    requires V.ValidCommand(command) && w.now < deadline
    requires w.shop.accepting && command.menuVersion == w.shop.version && V.Judge(w.shop.menu, command.lines).Served?
    ensures Path(Cell(P.Create(venue, command, amount, currency, deadline, w.now), None, NO_NET), steps, c)
    ensures Unanswered(c, cl, w, command) && AnswersAreLost(w, steps)
    ensures cl.token == token && c.p.row.deadline == deadline
    ensures cl.amount == amount && cl.currency == currency && c.p.row.cancellation == P.NotRequested
    ensures var verdict := V.Judge(w.shop.menu, command.lines);
      c.v.value.decision == Accept(newId, verdict.amount, verdict.currency)
    ensures (cl, c.v.value.decision) in c.net.decisions && c.net.callbackClaims == {} && c.p.received == []
  {
    hide Inv, Path, V.Judge, V.ValidCommand, V.Reserve;
    hide P.CustomerCancel, P.RecordEvent, V.Cancel, V.Transition, V.ClaimCallback, FinishedCallback, P.Resolve;
    var c0 := Cell(P.Create(venue, command, amount, currency, deadline, w.now), None, NO_NET);
    var take := TakeJob(0, token, 10);
    var c1 := Step(c0, w, take).cell;
    cl := P.ClaimOf(c0.p, 0, token, w.now, 10);
    var send := SendRequest(cl, w.now);
    var c2 := Step(c1, w, send).cell;
    var decide := VenueDecides(cl, newId);
    c := Step(c2, w, decide).cell;
    Protocol.CreateEstablishes(venue, command, amount, currency, deadline, w.now);
    StepKeepsInv(c0, w, take);
    StepKeepsInv(c1, w, send);
    StepKeepsInv(c2, w, decide);
    hide Step, Enabled;
    PathEnds(c);
    PathCons(c2, w, decide, [], c);
    PathCons(c1, w, send, [(w, decide)] + [], c);
    PathCons(c0, w, take, [(w, send)] + ([(w, decide)] + []), c);
    steps := [(w, take)] + ([(w, send)] + ([(w, decide)] + []));
  }

  /** A claim after the deadline gives up. */
  lemma LateClaimExpires(c: Cell, late: World, again: Id) returns (steps: seq<(World, Action)>, d: Cell)
    requires |c.p.jobs| == 1 && P.Claimable(c.p, 0, late.now) && c.p.jobs[0].kind.ConfirmOrder?
    requires FreshToken(c.net, again) && c.p.row.deadline <= late.now
    requires c.v.Some? && c.v.value.callbacks == []
    ensures Path(c, steps, d) && AnswersAreLost(late, steps)
    ensures Quiescent(d) && d.p.row.status == Expired && d.v == c.v
  {
    hide Path;
    var take := TakeJob(0, again, 10);
    var c1 := Step(c, late, take).cell;
    var giveUp := FinishConfirmation(P.ClaimOf(c.p, 0, again, late.now, 10), late.now, W.Undelivered(true), 0.0);
    d := Step(c1, late, giveUp).cell;
    PathEnds(d);
    PathCons(c1, late, giveUp, [], d);
    PathCons(c, late, take, [(late, giveUp)] + [], d);
    steps := [(late, take)] + ([(late, giveUp)] + []);
  }

  /** The worker retries until it has run out of attempts or time. */
  lemma RetriesExpire(c: Cell, cl: P.Claim, w: World, command: OrderCommand, again: Id)
    returns (steps: seq<(World, Action)>, d: Cell)
    requires Unanswered(c, cl, w, command) && w.now < c.p.row.deadline && again != cl.token
    ensures Path(c, steps, d) && AnswersAreLost(w, steps)
    ensures Quiescent(d) && d.p.row.status == Expired && d.v == c.v
  {
    hide Inv, Path, W.Backoff, P.Resolve;
    var finish := FinishConfirmation(cl, w.now, W.Undelivered(true), 0.0);
    var c1 := Step(c, w, finish).cell;
    var more := [];
    if c1.p.row.status == Expired {
      d := c1;
      PathEnds(d);
    } else {
      more, d := LateClaimExpires(c1, w.(now := c.p.row.deadline), again);
    }
    PathCons(c, w, finish, more, d);
    steps := [(w, finish)] + more;
  }

  lemma {:induction false} PathsJoin(c: Cell, steps: seq<(World, Action)>, d: Cell, more: seq<(World, Action)>, e: Cell)
    requires Path(c, steps, d) && Path(d, more, e)
    ensures Path(c, steps + more, e)
    decreases |steps|
  {
    hide Enabled, Step;
    if steps == [] {
      assert steps + more == more;
    } else {
      PathsJoin(Step(c, steps[0].0, steps[0].1).cell, steps[1..], d, more, e);
      assert (steps + more)[1..] == steps[1..] + more;
    }
  }

  /** The documented exception is reachable: for any order that the venue would accept the replies may be lost
      although they may be retried, so that the order expires on the platform and stays accepted, with its
      reservation, at the venue. */
  lemma ExpiredMayStayReserved(venue: Id, command: OrderCommand, amount: int, currency: Currency, deadline: int,
                               w: World, token: Id, newId: Id)
    requires V.ValidCommand(command) && w.now < deadline
    requires w.shop.accepting && command.menuVersion == w.shop.version && V.Judge(w.shop.menu, command.lines).Served?
    ensures exists steps, d ::
      && Path(Cell(P.Create(venue, command, amount, currency, deadline, w.now), None, NO_NET), steps, d)
      && AnswersAreLost(w, steps) && Quiescent(d) && !Agrees(d)
      && d.p.row.status == Expired && d.v.Some? && d.v.value.status == Accepted && d.v.value.lines == command.lines
  {
    hide V.Judge, V.ValidCommand, Path, P.Create;
    var cl, c, steps := ReplyIsLost(venue, command, amount, currency, deadline, w, token, newId);
    var more, d := RetriesExpire(c, cl, w, command, token + 1);
    hide Inv, Quiescent;
    PathsJoin(Cell(P.Create(venue, command, amount, currency, deadline, w.now), None, NO_NET), steps, c, more, d);
    assert AnswersAreLost(w, steps + more);
  }

  function ClosedPrefix(rows: seq<V.CallbackRow>): nat {
    if rows == [] || rows[0].Open() then 0 else 1 + ClosedPrefix(rows[1..])
  }

  lemma {:induction false} ClosedPrefixIsAll(rows: seq<V.CallbackRow>)
    requires forall j, k :: 0 <= j < k < |rows| && !rows[k].Open() ==> !rows[j].Open()
    ensures ClosedPrefix(rows) <= |rows|
    ensures forall k :: 0 <= k < |rows| ==> (!rows[k].Open() <==> k < ClosedPrefix(rows))
  {
    if rows != [] && !rows[0].Open() {
      ClosedPrefixIsAll(rows[1..]);
      forall k | 0 < k < |rows| ensures !rows[k].Open() <==> k < ClosedPrefix(rows) {
        assert rows[k] == rows[1..][k - 1];
      }
    }
  }

  /** Delivered callbacks are the first `p` of the issued ones, the platform has recorded them and at most one more,
      and a lease is only held on the first undelivered one. */
  ghost predicate DeliveredBetween(rows: seq<V.CallbackRow>, recorded: int) {
    var p := ClosedPrefix(rows);
    && (forall k :: 0 <= k < |rows| ==> rows[k].event.sequence == k + 1 && (!rows[k].Open() <==> k < p))
    && (forall k :: 0 <= k < |rows| && rows[k].token.Some? ==> k == p)
    && p <= recorded <= p + 1 && recorded <= |rows|
  }

  lemma LeaseBehindPrefix(v: V.Order, k: nat)
    requires V.DeliveredInOrder(v) && k < |v.callbacks| && v.callbacks[k].token.Some?
    ensures k == ClosedPrefix(v.callbacks)
  {
    ClosedPrefixIsAll(v.callbacks);
    assert k > 0 ==> !v.callbacks[k - 1].Open();
  }

  lemma DeliverySandwich(c: Cell)
    requires Inv(c) && c.v.Some?
    ensures DeliveredBetween(c.v.value.callbacks, c.p.row.sequence)
  {
    var rows := c.v.value.callbacks;
    ClosedPrefixIsAll(rows);
    forall k | 0 <= k < |rows| && rows[k].token.Some? ensures k == ClosedPrefix(rows) {
      LeaseBehindPrefix(c.v.value, k);
    }
    var p := ClosedPrefix(rows);
    if p > 0 {
      assert !rows[p - 1].Open();
    }
  }
}
