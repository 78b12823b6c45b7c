/** What the platform's transactions do to the columns of one order, case by case: nothing here is stated through
    the functions that the transactions are built from. */
module PlatformRules {
  import opened Types
  import P = Platform
  import K = Checkout

  /** The rows of a new order: pending, and one confirmation job, due at once and never claimed, that orders exactly
      the charged lines. */
  ghost predicate Placed(p: P.Order, venue: Id, order: Id, version: int, basket: K.Basket, currency: Currency,
                         deadline: int, now: int)
  {
    && p.row ==
         P.OrderRow(venue, basket.amount, currency, deadline, Pending, P.NotRequested, 0, None, None)
    && p.history == [P.HistoryRow(Pending, P.ByCustomer)] && p.received == []
    && |p.jobs| == 1 && p.jobs[0].kind.ConfirmOrder?
    && p.jobs[0] == P.OutboxRow(p.jobs[0].kind, 0, now, None, None, None, None)
    && var command := p.jobs[0].kind.command;
       && command.order == order && command.menuVersion == version && |command.lines| == |basket.items|
       && forall i :: 0 <= i < |command.lines| ==>
            command.lines[i] == Line(basket.items[i].external, basket.items[i].quantity, basket.items[i].price)
  }

  lemma CreateRules(venue: Id, order: Id, request: K.Request, basket: K.Basket, currency: Currency,
                    deadline: int, now: int)
    ensures Placed(P.Create(venue, K.CommandOf(order, request, basket), basket.amount, currency, deadline, now),
                   venue, order, request.menuVersion, basket, currency, deadline, now)
  {
  }

  /** A customer's cancellation: the request is queued for an accepted order, an order that was never claimed is
      cancelled at once, an existing request or result is repeated, and everything else is refused. */
  lemma CancellationRules(p: P.Order, now: int)
    requires P.Inv(p)
    ensures var t, status, cancellation := P.CustomerCancel(p, now), p.row.status, p.row.cancellation;
      && (status == Accepted && cancellation in {P.NotRequested, P.Failed} ==>
            && t.Commit? && t.state.row == p.row.(cancellation := P.Requested)
            && t.state.jobs == p.jobs + [P.OutboxRow(P.CancelOrder, 0, now, None, None, None, None)]
            && t.state.history == p.history && t.state.received == p.received)
      && (status == Pending && p.jobs[0].attempts == 0 ==>
            && t.Commit? && t.state.row == p.row.(status := Cancelled, cancellation := P.Confirmed)
            && t.state.jobs ==
                 [p.jobs[0].(processedAt := Some(now), lastError := Some(P.CancelledBeforeDispatch))]
            && t.state.history == p.history + [P.HistoryRow(Cancelled, P.ByCustomer)]
            && t.state.received == p.received)
      && (cancellation in {P.Requested, P.Refused, P.Confirmed} ==> t == Commit(p))
      && (t.Rollback? <==>
            && cancellation in {P.NotRequested, P.Failed}
            && (|| (status == Pending && p.jobs[0].attempts > 0)
                || status in {Preparing, Ready, Completed, Rejected, Expired}))
      && (t.Rollback? ==> t.error == P.NotAllowed)
  {
    P.OpenConfirmationIsFirst(p);
  }

  /** The row is open, due, unlocked or its lease is over, and its order still waits for it. */
  predicate Due(row: P.OutboxRow, order: P.OrderRow, now: int) {
    && row.processedAt.None? && row.availableAt <= now
    && (row.lockedUntil.Some? ==> row.lockedUntil.value < now)
    && (row.kind.ConfirmOrder? ==> order.status == Pending)
    && (row.kind.CancelOrder? ==> order.cancellation == P.Requested)
  }

  /** A worker's token is still the one in its row. */
  predicate Leased(p: P.Order, k: nat, token: Id) {
    k < |p.jobs| && p.jobs[k].token == Some(token) && p.jobs[k].processedAt.None?
  }

  /** The row of a finished job; a finished job is not leased. */
  function Closed(job: P.OutboxRow, now: int, lastError: Option<P.JobError>): P.OutboxRow {
    P.OutboxRow(job.kind, job.attempts, job.availableAt, None, None, Some(now), lastError)
  }

  /** The venue's decision: it becomes the status of a pending order and is dropped for any other. */
  lemma DecisionRules(p: P.Order, k: nat, token: Id, decision: Decision, now: int)
    ensures var t := P.Resolve(p, k, token, decision, now);
      && (!Leased(p, k, token) ==> t == Rollback(P.LeaseLost))
      && (Leased(p, k, token) ==>
            && t.Commit? && t.state.jobs == p.jobs[k := Closed(p.jobs[k], now, p.jobs[k].lastError)]
            && t.state.received == p.received
            && (p.row.status != Pending ==> t.state.row == p.row && t.state.history == p.history)
            && (p.row.status == Pending && decision.Accept? ==>
                  && t.state.row ==
                       p.row.(status := Accepted, externalId := Some(decision.externalId), reason := None)
                  && t.state.history == p.history + [P.HistoryRow(Accepted, P.ByVenue)])
            && (p.row.status == Pending && decision.Reject? ==>
                  && t.state.row == p.row.(status := Rejected, externalId := None, reason := Some(decision.reason))
                  && t.state.history == p.history + [P.HistoryRow(Rejected, P.ByVenue)]))
  {
  }

  /** The venue's answer to a cancellation: it counts only while the cancellation is requested. */
  lemma AnswerRules(p: P.Order, k: nat, token: Id, answer: CancelDecision, now: int)
    ensures var t := P.ResolveCancellation(p, k, token, answer, now);
      && (!Leased(p, k, token) ==> t == Rollback(P.LeaseLost))
      && (Leased(p, k, token) ==>
            && t.Commit? && t.state.jobs == p.jobs[k := Closed(p.jobs[k], now, p.jobs[k].lastError)]
            && t.state.received == p.received
            && (p.row.cancellation != P.Requested ==> t.state.row == p.row && t.state.history == p.history)
            && (p.row.cancellation == P.Requested && answer.CancelConfirmed? ==>
                  && t.state.row == p.row.(status := Cancelled, cancellation := P.Confirmed)
                  && t.state.history == p.history + [P.HistoryRow(Cancelled, P.ByVenue)])
            && (p.row.cancellation == P.Requested && answer.CancelRefused? ==>
                  && t.state.row == p.row.(cancellation := P.Refused)
                  && t.state.history == p.history))
  {
  }

  /** A job that is put back changes its own row only; giving up expires a pending order, fails a requested
      cancellation, and changes nothing else of the order. */
  lemma RetryRules(p: P.Order, k: nat, token: Id, at: int, now: int)
    ensures var back, up := P.Reschedule(p, k, token, at), P.GiveUp(p, k, token, now);
      && (!Leased(p, k, token) ==> back == Rollback(P.LeaseLost) && up == Rollback(P.LeaseLost))
      && (Leased(p, k, token) ==>
            && back == Commit(p.(jobs := p.jobs[k := P.OutboxRow(
                 p.jobs[k].kind, p.jobs[k].attempts, at, None, None, None, p.jobs[k].lastError)]))
            && up.Commit? && up.state.received == p.received
            && (p.jobs[k].kind.ConfirmOrder? ==>
                  && up.state.jobs == p.jobs[k := Closed(p.jobs[k], now, Some(P.ConfirmationTimedOut))]
                  && (p.row.status != Pending ==> up.state.row == p.row && up.state.history == p.history)
                  && (p.row.status == Pending ==>
                        && up.state.row == p.row.(status := Expired)
                        && up.state.history == p.history + [P.HistoryRow(Expired, P.ByPlatform)]))
            && (p.jobs[k].kind.CancelOrder? ==>
                  && up.state.jobs == p.jobs[k := Closed(p.jobs[k], now, Some(P.CancellationUndelivered))]
                  && up.state.history == p.history
                  && up.state.row == p.row.(cancellation :=
                       if p.row.cancellation == P.Requested then P.Failed else p.row.cancellation)))
  {
  }

  /** Every move that an event of the venue may make, with the status it leads to. */
  const MOVES: set<(Status, EventKind, Status)> := {
    (Accepted, OrderPreparing, Preparing), (Preparing, OrderReady, Ready), (Ready, OrderCompleted, Completed),
    (Accepted, OrderCancelled, Cancelled), (Preparing, OrderCancelled, Cancelled),
    (Cancelled, OrderCancelled, Cancelled)}

  ghost predicate KnownEvent(p: P.Order, id: Id) {
    exists i :: 0 <= i < |p.received| && p.received[i].id == id
  }

  /** The event belongs to this venue and nobody recorded its id before. */
  ghost predicate NewEvent(p: P.Order, venue: Id, e: OrderEvent, elsewhere: bool) {
    p.row.venue == venue && !KnownEvent(p, e.id) && !elsewhere
  }

  ghost predicate UniqueEvents(p: P.Order) {
    forall j, k :: 0 <= j < k < |p.received| ==> p.received[j].id != p.received[k].id
  }

  /** A callback: each error exactly when its check fails, in the order of the checks; an exact repeat changes
      nothing. */
  lemma EventRules(p: P.Order, venue: Id, e: OrderEvent, elsewhere: bool, now: int)
    requires P.Inv(p) && UniqueEvents(p)
    ensures var t := P.RecordEvent(p, venue, e, elsewhere, now);
      && (t == Rollback(P.VenueMismatch) <==> p.row.venue != venue)
      && (p.row.venue == venue && e in p.received ==> t == Commit(p))
      && (t == Rollback(P.EventConflict) <==>
            p.row.venue == venue && if KnownEvent(p, e.id) then e !in p.received else elsewhere)
      && (t == Rollback(P.SequenceConflict) <==>
            NewEvent(p, venue, e, elsewhere) && e.sequence != |p.received| + 1)
      && (t == Rollback(P.InvalidTransition) <==>
            && NewEvent(p, venue, e, elsewhere) && e.sequence == |p.received| + 1
            && forall target :: (p.row.status, e.kind, target) !in MOVES)
      && (t.Commit? <==>
            && p.row.venue == venue
            && (|| e in p.received
                || (&& NewEvent(p, venue, e, elsewhere) && e.sequence == |p.received| + 1
                    && exists target :: (p.row.status, e.kind, target) in MOVES)))
  {
    FoundIsEvent(p, e);
    MovesAreTransitions(p.row.status, e.kind);
    hide P.Inv, P.EventTransition, P.ApplyEvent, UniqueEvents;
    assert p.row.sequence == |p.received| by { SequenceCounts(p); }
  }

  lemma SequenceCounts(p: P.Order)
    requires P.Inv(p)
    ensures p.row.sequence == |p.received|
  {
  }

  lemma FoundIsEvent(p: P.Order, e: OrderEvent)
    requires UniqueEvents(p)
    ensures var found := P.FindEvent(p.received, e.id);
      (found.Some? <==> KnownEvent(p, e.id)) && (found == Some(e) <==> e in p.received)
  {
    var found := P.FindEvent(p.received, e.id);
    if i :| 0 <= i < |p.received| && p.received[i] == e {
      assert KnownEvent(p, e.id);
      var j :| 0 <= j < |p.received| && p.received[j] == found.value;
    }
  }

  lemma MovesAreTransitions(status: Status, kind: EventKind)
    ensures forall target :: (status, kind, target) in MOVES <==> P.EventTransition(status, kind) == Some(target)
    ensures P.EventTransition(status, kind).Some? <==> exists target :: (status, kind, target) in MOVES
  {
    var next := P.EventTransition(status, kind);
    if next.Some? {
      assert (status, kind, next.value) in MOVES;
    }
  }

  /** The rows after a recorded event: status, numbers, history, and no open cancellation after a cancelled one. */
  lemma RecordedRules(p: P.Order, venue: Id, e: OrderEvent, elsewhere: bool, now: int)
    requires P.RecordEvent(p, venue, e, elsewhere, now).Commit? && !KnownEvent(p, e.id)
    ensures var q := P.RecordEvent(p, venue, e, elsewhere, now).state;
      && (p.row.status, e.kind, q.row.status) in MOVES
      && q.row == p.row.(status := q.row.status, sequence := e.sequence,
           cancellation := if e.kind == OrderCancelled then P.Confirmed else p.row.cancellation)
      && q.received == p.received + [e]
      && q.history ==
           p.history + (if q.row.status == p.row.status then [] else [P.HistoryRow(q.row.status, P.ByVenue)])
      && |q.jobs| == |p.jobs|
      && forall k :: 0 <= k < |p.jobs| ==>
           q.jobs[k] ==
             if e.kind == OrderCancelled && p.jobs[k].kind.CancelOrder? then
               P.OutboxRow(p.jobs[k].kind, p.jobs[k].attempts, p.jobs[k].availableAt, None, None,
                           if p.jobs[k].processedAt.None? then Some(now) else p.jobs[k].processedAt,
                           p.jobs[k].lastError)
             else p.jobs[k]
  {
    assert P.FindEvent(p.received, e.id).None?;
    MovesAreTransitions(p.row.status, e.kind);
  }
}
