/** When the two outboxes hand a row out: not before it is due, and from then on to whoever asks. */
module Queues {
  import opened Types
  import opened Protocol
  import opened Progress
  import opened PlatformRules
  import P = Platform
  import V = Venue
  import W = Worker
  import CallbackFencing
  import VenueRules

  // ---------- the platform's outbox ----------

  /** A job can be handed out exactly when it is open, due, unlocked or its lease is over, and its order still
      waits for it. That writes its lease, its token and one more attempt, and the worker gets what it needs to ask
      the venue and to finish. */
  lemma JobIsHandedOut(c: Cell, w: World, k: nat, token: Id, lease: int)
    requires FreshToken(c.net, token)
    ensures Enabled(c, w, TakeJob(k, token, lease)) <==> k < |c.p.jobs| && Due(c.p.jobs[k], c.p.row, w.now)
    ensures k < |c.p.jobs| && Due(c.p.jobs[k], c.p.row, w.now) ==>
      var job, d := c.p.jobs[k], Step(c, w, TakeJob(k, token, lease)).cell;
      && d.p == c.p.(jobs := c.p.jobs[k := P.OutboxRow(job.kind, job.attempts + 1, job.availableAt,
                                                       Some(w.now + lease), Some(token), None, job.lastError)])
      && d.net == c.net.(claims := c.net.claims + {P.Claim(k, job.kind, token, job.attempts + 1, w.now + lease,
                                                           c.p.row.deadline, c.p.row.amount, c.p.row.currency)})
      && d.v == c.v
  {
  }

  /** The job is closed, or put back until `at`. */
  predicate PutBack(p: P.Order, k: nat, at: int) {
    && k < |p.jobs|
    && (p.jobs[k].processedAt.None? ==>
          p.jobs[k].token.None? && p.jobs[k].lockedUntil.None? && p.jobs[k].availableAt == at)
  }

  lemma StepKeepsPutBack(c: Cell, w: World, a: Action, k: nat, at: int)
    requires Inv(c) && PutBack(c.p, k, at) && Enabled(c, w, a) && w.now < at
    ensures PutBack(Step(c, w, a).cell.p, k, at)
    ensures !(a.TakeJob? && a.job == k)
  {
    hide Inv, V.Serve, V.Cancel, V.Transition, V.ClaimCallback, FinishedCallback;
    match a {
      case FinishConfirmation(cl, checkedAt, delivery, jitter) =>
        FinishKeepsPutBack(c.p, cl, w, checkedAt, delivery, W.Undelivered(false), jitter, k, at);
      case FinishCancellation(cl, delivery, jitter) =>
        FinishKeepsPutBack(c.p, cl, w, 0, W.Undelivered(false), delivery, jitter, k, at);
      case CustomerCancels => CustomerKeepsPutBack(c.p, w.now, k, at);
      case PlatformRecords(cb, elsewhere) => RecordKeepsPutBack(c.p, w, cb.event, elsewhere, k, at);
      case _ =>
    }
  }

  lemma FinishKeepsPutBack(p: P.Order, cl: P.Claim, w: World, checkedAt: int, delivery: W.Delivery<Decision>,
                           answer: W.Delivery<CancelDecision>, jitter: real, k: nat, at: int)
    requires PutBack(p, k, at)
    ensures PutBack(FinishedConfirmation(p, cl, w, checkedAt, delivery, jitter), k, at)
    ensures PutBack(FinishedCancellation(p, cl, w, answer, jitter), k, at)
  {
    hide W.PlanConfirmation, W.PlanCancellation;
  }

  lemma CustomerKeepsPutBack(p: P.Order, now: int, k: nat, at: int)
    requires PutBack(p, k, at)
    ensures PutBack(P.Committed(p, P.CustomerCancel(p, now)), k, at)
  {
    hide P.OpenConfirmation;
  }

  lemma RecordKeepsPutBack(p: P.Order, w: World, e: OrderEvent, elsewhere: bool, k: nat, at: int)
    requires PutBack(p, k, at)
    ensures PutBack(P.Committed(p, P.RecordEvent(p, w.venue, e, elsewhere, w.now)), k, at)
  {
  }

  /** Whatever happens, a job that was put back until `at` is not handed out before `at`. */
  lemma {:induction false} NotBeforeItIsDue(c: Cell, steps: seq<(World, Action)>, d: Cell, k: nat, at: int)
    requires Inv(c) && PutBack(c.p, k, at) && Path(c, steps, d)
    requires forall s :: s in steps ==> s.0.now < at
    ensures PutBack(d.p, k, at)
    ensures forall s :: s in steps ==> !(s.1.TakeJob? && s.1.job == k)
    decreases |steps|
  {
    hide Inv, PutBack, Enabled, Step;
    if steps != [] {
      assert steps[0] in steps;
      StepKeepsInv(c, steps[0].0, steps[0].1);
      StepKeepsPutBack(c, steps[0].0, steps[0].1, k, at);
      NotBeforeItIsDue(Step(c, steps[0].0, steps[0].1).cell, steps[1..], d, k, at);
      assert forall s :: s in steps ==> s == steps[0] || s in steps[1..];
    }
  }

  /** The worker that still holds the job has failed to reach the venue. */
  predicate Fails(c: Cell, a: Action) {
    match a {
      case FinishConfirmation(cl, _, delivery, _) => Leased(c.p, cl.job, cl.token) && delivery.Undelivered?
      case FinishCancellation(cl, delivery, _) => Leased(c.p, cl.job, cl.token) && delivery.Undelivered?
      case _ => false
    }
  }

  /** After a failed attempt nobody tries that job again before the retry delay is over. */
  lemma FailedAttemptWaits(c: Cell, w: World, a: Action, steps: seq<(World, Action)>, d: Cell)
    requires Inv(c) && Enabled(c, w, a) && Fails(c, a) && Path(Step(c, w, a).cell, steps, d)
    requires forall s :: s in steps ==> s.0.now < w.now + W.Backoff(a.claim.attempts, W.RETRY_SHIFT, a.jitter)
    ensures forall s :: s in steps ==> !(s.1.TakeJob? && s.1.job == a.claim.job)
  {
    var at := w.now + W.Backoff(a.claim.attempts, W.RETRY_SHIFT, a.jitter);
    StepKeepsInv(c, w, a);
    FailedIsPutBack(c, w, a);
    hide Inv, Step, Enabled, Path, PutBack;
    NotBeforeItIsDue(Step(c, w, a).cell, steps, d, a.claim.job, at);
  }

  lemma FailedIsPutBack(c: Cell, w: World, a: Action)
    requires Enabled(c, w, a) && Fails(c, a)
    ensures PutBack(Step(c, w, a).cell.p, a.claim.job,
                    w.now + W.Backoff(a.claim.attempts, W.RETRY_SHIFT, a.jitter))
  {
    hide W.Backoff;
  }

  // ---------- the venue's outbox ----------

  /** A callback can be handed out exactly when it is open, due, unlocked or its lease is over, and every earlier
      one of its order is delivered. That writes its lease, its token and one more attempt. */
  lemma CallbackIsHandedOut(c: Cell, w: World, k: nat, token: Id, lease: int)
    requires FreshCallbackToken(c.net, token) && c.v.Some?
    ensures Enabled(c, w, TakeCallback(k, token, lease)) <==>
      k < |c.v.value.callbacks| && VenueRules.Due(c.v.value.callbacks, k, w.now)
    ensures k < |c.v.value.callbacks| && VenueRules.Due(c.v.value.callbacks, k, w.now) ==>
      var row, d := c.v.value.callbacks[k], Step(c, w, TakeCallback(k, token, lease)).cell;
      && d.v == Some(c.v.value.(callbacks := c.v.value.callbacks[k := V.CallbackRow(
           row.event, row.attempts + 1, row.availableAt, Some(w.now + lease), Some(token), None)]))
      && d.net == c.net.(callbackClaims := c.net.callbackClaims +
           {V.CallbackClaim(k, token, row.event, row.attempts + 1, w.now + lease)})
      && d.p == c.p
  {
  }

  /** The callback is delivered, or put back until `at`. */
  predicate RowPutBack(v: Option<V.Order>, k: nat, at: int) {
    && v.Some? && k < |v.value.callbacks|
    && var row := v.value.callbacks[k];
       row.processedAt.None? ==> row.token.None? && row.lockedUntil.None? && row.availableAt == at
  }

  lemma StepKeepsRowPutBack(c: Cell, w: World, a: Action, k: nat, at: int)
    requires RowPutBack(c.v, k, at) && Enabled(c, w, a) && w.now < at
    ensures RowPutBack(Step(c, w, a).cell.v, k, at)
    ensures !(a.TakeCallback? && a.row == k)
  {
    hide V.Serve, V.Cancel, V.Transition, FinishedCallback, FinishedConfirmation, FinishedCancellation;
    hide P.CustomerCancel, P.RecordEvent, P.ClaimJob;
    var v := c.v.value;
    match a {
      case VenueDecides(cl, newId) => ServeShape(w.shop, c.v, cl.kind.command, newId);
      case VenueCancels(_, id) => CallbackFencing.VenueKeepsRow(v, w.shop.menu, V.Complete, id, w.now, k);
      case StaffMoves(move, id) => CallbackFencing.VenueKeepsRow(v, w.shop.menu, move, id, w.now, k);
      case FinishCallback(cb, acked, jitter) => FinishKeepsRow(v, cb, w, acked, jitter, k, at);
      case _ =>
    }
  }

  lemma FinishKeepsRow(v: V.Order, cb: V.CallbackClaim, w: World, acked: bool, jitter: real, k: nat, at: int)
    requires RowPutBack(Some(v), k, at)
    ensures RowPutBack(Some(FinishedCallback(v, cb, w, acked, jitter)), k, at)
  {
    hide W.Backoff;
  }

  /** Whatever happens, a callback that was put back until `at` is not handed out before `at`. */
  lemma {:induction false} CallbackNotBeforeItIsDue(c: Cell, steps: seq<(World, Action)>, d: Cell, k: nat, at: int)
    requires RowPutBack(c.v, k, at) && Path(c, steps, d)
    requires forall s :: s in steps ==> s.0.now < at
    ensures RowPutBack(d.v, k, at)
    ensures forall s :: s in steps ==> !(s.1.TakeCallback? && s.1.row == k)
    decreases |steps|
  {
    hide RowPutBack, Enabled, Step;
    if steps != [] {
      assert steps[0] in steps;
      StepKeepsRowPutBack(c, steps[0].0, steps[0].1, k, at);
      CallbackNotBeforeItIsDue(Step(c, steps[0].0, steps[0].1).cell, steps[1..], d, k, at);
      assert forall s :: s in steps ==> s == steps[0] || s in steps[1..];
    }
  }

  /** The worker that still holds the callback got no acknowledgement. */
  predicate FailsToDeliver(c: Cell, a: Action) {
    && a.FinishCallback? && !a.acked && c.v.Some? && a.callback.row < |c.v.value.callbacks|
    && c.v.value.callbacks[a.callback.row].token == Some(a.callback.token)
    && c.v.value.callbacks[a.callback.row].processedAt.None?
  }

  /** After a failed delivery nobody sends that callback again before the retry delay is over. */
  lemma FailedDeliveryWaits(c: Cell, w: World, a: Action, steps: seq<(World, Action)>, d: Cell)
    requires Enabled(c, w, a) && FailsToDeliver(c, a) && Path(Step(c, w, a).cell, steps, d)
    requires forall s :: s in steps ==> s.0.now < w.now + W.Backoff(a.callback.attempts, W.CALLBACK_SHIFT, a.jitter)
    ensures forall s :: s in steps ==> !(s.1.TakeCallback? && s.1.row == a.callback.row)
  {
    var at := w.now + W.Backoff(a.callback.attempts, W.CALLBACK_SHIFT, a.jitter);
    RowIsPutBack(c, w, a);
    hide Step, Enabled, Path, RowPutBack;
    CallbackNotBeforeItIsDue(Step(c, w, a).cell, steps, d, a.callback.row, at);
  }

  lemma RowIsPutBack(c: Cell, w: World, a: Action)
    requires Enabled(c, w, a) && FailsToDeliver(c, a)
    ensures RowPutBack(Step(c, w, a).cell.v, a.callback.row,
                       w.now + W.Backoff(a.callback.attempts, W.CALLBACK_SHIFT, a.jitter))
  {
    hide W.Backoff;
  }

  /** A delivered callback is closed, one without an acknowledgement is put back, and a worker that lost its lease
      changes nothing. */
  lemma CallbackRules(v: V.Order, k: nat, token: Id, now: int, at: int)
    ensures var completed, retried := V.CompleteCallback(v, k, token, now), V.RetryCallback(v, k, token, at);
      if k < |v.callbacks| && v.callbacks[k].token == Some(token) && v.callbacks[k].processedAt.None? then
        var row := v.callbacks[k];
        && completed == Commit(v.(callbacks :=
             v.callbacks[k := V.CallbackRow(row.event, row.attempts, row.availableAt, None, None, Some(now))]))
        && retried == Commit(v.(callbacks :=
             v.callbacks[k := V.CallbackRow(row.event, row.attempts, at, None, None, None)]))
      else completed == Rollback(V.LeaseLost) && retried == Rollback(V.LeaseLost)
  {
  }

  // ---------- how a round of the workers ends ----------

  /** A worker that still holds a pending confirmation: a decision obtained in time becomes the status, a failure that
      may be repeated in time is put back, and everything else expires the order. */
  lemma ConfirmationRound(p: P.Order, cl: P.Claim, w: World, checkedAt: int, delivery: W.Delivery<Decision>,
                          jitter: real)
    requires Leased(p, cl.job, cl.token) && p.jobs[cl.job].kind.ConfirmOrder? && p.row.status == Pending
    ensures var q, next := FinishedConfirmation(p, cl, w, checkedAt, delivery, jitter),
                           w.now + W.Backoff(cl.attempts, W.RETRY_SHIFT, jitter);
      && |q.jobs| == |p.jobs|
      && if checkedAt < cl.deadline && delivery.Delivered? then
           && q.jobs[cl.job].processedAt == Some(w.now)
           && q.row.status == (if delivery.decision.Accept? then Accepted else Rejected)
         else if checkedAt < cl.deadline && delivery == W.Undelivered(true)
                 && cl.attempts < w.maxAttempts && next < cl.deadline then
           q.jobs[cl.job].processedAt.None? && q.jobs[cl.job].availableAt == next && q.row == p.row
         else q.jobs[cl.job].processedAt == Some(w.now) && q.row.status == Expired
  {
    hide W.Backoff;
  }

  /** A worker that still holds a requested cancellation: the answer is taken over, a failure that may be repeated is
      put back, and everything else fails the cancellation and leaves the status. */
  lemma CancellationRound(p: P.Order, cl: P.Claim, w: World, delivery: W.Delivery<CancelDecision>, jitter: real)
    requires Leased(p, cl.job, cl.token) && p.jobs[cl.job].kind.CancelOrder? && p.row.cancellation == P.Requested
    ensures var q, next := FinishedCancellation(p, cl, w, delivery, jitter),
                           w.now + W.Backoff(cl.attempts, W.RETRY_SHIFT, jitter);
      && |q.jobs| == |p.jobs|
      && if delivery.Delivered? then
           && q.jobs[cl.job].processedAt == Some(w.now)
           && (delivery.decision.CancelConfirmed? ==> q.row.cancellation == P.Confirmed && q.row.status == Cancelled)
           && (delivery.decision.CancelRefused? ==> q.row.cancellation == P.Refused && q.row.status == p.row.status)
         else if delivery.retryable && cl.attempts < w.maxAttempts then
           q.jobs[cl.job].processedAt.None? && q.jobs[cl.job].availableAt == next && q.row == p.row
         else
           && q.jobs[cl.job].processedAt == Some(w.now)
           && q.row.cancellation == P.Failed && q.row.status == p.row.status
  {
    hide W.Backoff;
  }

  /** A worker that still holds a callback marks it delivered exactly when it was acknowledged; otherwise it is put
      back, however often. */
  lemma CallbackRound(v: V.Order, cb: V.CallbackClaim, w: World, acked: bool, jitter: real)
    requires cb.row < |v.callbacks| && v.callbacks[cb.row].token == Some(cb.token)
    requires v.callbacks[cb.row].processedAt.None?
    ensures var u := FinishedCallback(v, cb, w, acked, jitter);
      && |u.callbacks| == |v.callbacks|
      && if acked then u.callbacks[cb.row].processedAt == Some(w.now)
         else
           && u.callbacks[cb.row].processedAt.None? && u.callbacks[cb.row].token.None?
           && u.callbacks[cb.row].availableAt == w.now + W.Backoff(cb.attempts, W.CALLBACK_SHIFT, jitter)
  {
    hide W.Backoff;
  }
}
