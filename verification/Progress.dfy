/** What one order keeps for ever: a relation that every step respects and that composes over runs. */
module Progress {
  import opened Types
  import opened Protocol
  import P = Platform
  import V = Venue
  import W = Worker

  /** History and events only grow, a finished job is never touched again, a refusal is never forgotten. */
  ghost predicate PlatformLater(p: P.Order, q: P.Order) {
    && p.history <= q.history
    && p.received <= q.received
    && |p.jobs| <= |q.jobs|
    && (forall k :: 0 <= k < |p.jobs| ==>
          && q.jobs[k].kind == p.jobs[k].kind
          && q.jobs[k].attempts >= p.jobs[k].attempts
          && (!p.jobs[k].Open() ==> q.jobs[k] == p.jobs[k]))
    && (p.row.cancellation == P.Refused ==> q.row.cancellation == P.Refused)
    && q.row.amount == p.row.amount && q.row.currency == p.row.currency
    && q.row.venue == p.row.venue && q.row.deadline == p.row.deadline
  }

  /** Saved decisions and lines never change, the log only grows, a delivered callback stays delivered. */
  ghost predicate VenueLater(v: V.Order, u: V.Order) {
    && u.id == v.id && u.lines == v.lines && u.decision == v.decision
    && (v.cancelDecision.Some? ==> u.cancelDecision == v.cancelDecision)
    && V.Log(v) <= V.Log(u)
    && (forall k :: 0 <= k < |v.callbacks| && !v.callbacks[k].Open() ==> u.callbacks[k] == v.callbacks[k])
  }

  ghost predicate NetLater(n: Net, m: Net) {
    && n.claims <= m.claims && n.sent <= m.sent && n.decisions <= m.decisions
    && n.cancelDecisions <= m.cancelDecisions && n.callbackClaims <= m.callbackClaims
    && n.callbacksSent <= m.callbacksSent && n.acks <= m.acks
  }

  ghost predicate Later(c: Cell, d: Cell) {
    && PlatformLater(c.p, d.p)
    && (c.v.Some? ==> d.v.Some? && VenueLater(c.v.value, d.v.value))
    && NetLater(c.net, d.net)
  }

  lemma LaterIsReflexive(c: Cell)
    ensures Later(c, c)
  {
  }

  lemma LaterIsTransitive(c: Cell, d: Cell, e: Cell)
    requires Later(c, d) && Later(d, e)
    ensures Later(c, e)
  {
  }

  lemma ResolveIsLater(p: P.Order, k: nat, token: Id, decision: Decision, now: int)
    requires P.Inv(p) && P.Owns(p, k, token)
    ensures PlatformLater(p, P.Resolve(p, k, token, decision, now).state)
  {
  }

  lemma ResolveCancellationIsLater(p: P.Order, k: nat, token: Id, decision: CancelDecision, now: int)
    requires P.Inv(p) && P.Owns(p, k, token)
    ensures PlatformLater(p, P.ResolveCancellation(p, k, token, decision, now).state)
  {
  }

  lemma RescheduleIsLater(p: P.Order, k: nat, token: Id, at: int)
    requires P.Inv(p) && P.Owns(p, k, token)
    ensures PlatformLater(p, P.Reschedule(p, k, token, at).state)
  {
  }

  lemma GiveUpIsLater(p: P.Order, k: nat, token: Id, now: int)
    requires P.Inv(p) && P.Owns(p, k, token)
    ensures PlatformLater(p, P.GiveUp(p, k, token, now).state)
  {
  }

  lemma ConfirmationIsLater(c: Cell, w: World, cl: P.Claim, checkedAt: int,
                            delivery: W.Delivery<Decision>, jitter: real)
    requires Inv(c)
    ensures PlatformLater(c.p, FinishedConfirmation(c.p, cl, w, checkedAt, delivery, jitter))
  {
    hide ClaimsAreGenuine, VenueAnswered, CallbacksAreGenuine, ReceivedIsPrefix, StatusIsJustified, W.Backoff;
    if P.Owns(c.p, cl.job, cl.token) {
      match W.PlanConfirmation(cl.attempts, w.maxAttempts, cl.deadline, checkedAt, delivery, w.now, jitter) {
        case Apply => ResolveIsLater(c.p, cl.job, cl.token, delivery.decision, w.now);
        case Reschedule(at) => RescheduleIsLater(c.p, cl.job, cl.token, at);
        case GiveUp => GiveUpIsLater(c.p, cl.job, cl.token, w.now);
      }
    }
  }

  lemma CancellationIsLater(c: Cell, w: World, cl: P.Claim, delivery: W.Delivery<CancelDecision>, jitter: real)
    requires Inv(c)
    ensures PlatformLater(c.p, FinishedCancellation(c.p, cl, w, delivery, jitter))
  {
    hide ClaimsAreGenuine, VenueAnswered, CallbacksAreGenuine, ReceivedIsPrefix, StatusIsJustified, W.Backoff;
    if P.Owns(c.p, cl.job, cl.token) {
      match W.PlanCancellation(cl.attempts, w.maxAttempts, delivery, w.now, jitter) {
        case Apply => ResolveCancellationIsLater(c.p, cl.job, cl.token, delivery.decision, w.now);
        case Reschedule(at) => RescheduleIsLater(c.p, cl.job, cl.token, at);
        case GiveUp => GiveUpIsLater(c.p, cl.job, cl.token, w.now);
      }
    }
  }

  lemma CustomerIsLater(c: Cell, now: int)
    requires Inv(c)
    ensures PlatformLater(c.p, P.Committed(c.p, P.CustomerCancel(c.p, now)))
  {
  }

  lemma RecordIsLater(c: Cell, w: World, cb: V.CallbackClaim, elsewhere: bool)
    requires Inv(c) && cb in c.net.callbacksSent
    ensures PlatformLater(c.p, P.Committed(c.p, P.RecordEvent(c.p, w.venue, cb.event, elsewhere, w.now)))
  {
    if cb.event.kind == OrderCancelled {
      CancelledIsNotRefused(c, cb);
    }
    assert P.Inv(c.p);
    hide Inv, P.Inv;
    EventIsLater(c.p, w.venue, cb.event, elsewhere, w.now);
  }

  lemma EventIsLater(p: P.Order, venue: Id, e: OrderEvent, elsewhere: bool, now: int)
    requires P.Inv(p) && (e.kind == OrderCancelled ==> p.row.cancellation != P.Refused)
    ensures PlatformLater(p, P.Committed(p, P.RecordEvent(p, venue, e, elsewhere, now)))
  {
  }

  lemma CancelledIsNotRefused(c: Cell, cb: V.CallbackClaim)
    requires Inv(c) && cb in c.net.callbacksSent && cb.event.kind == OrderCancelled
    ensures c.p.row.cancellation != P.Refused
  {
    assert cb in c.net.callbackClaims;
    assert V.LogOf(c.v.value.status)[cb.row] == OrderCancelled;
  }

  lemma CallbackIsLater(v: V.Order, cb: V.CallbackClaim, w: World, acked: bool, jitter: real)
    ensures VenueLater(v, FinishedCallback(v, cb, w, acked, jitter))
  {
  }

  lemma VenueCancelIsLater(menu: V.Menu, v: V.Order, id: Id, now: int)
    ensures VenueLater(v, V.Cancel(menu, Some(v), id, now).order.value)
  {
  }

  lemma StaffIsLater(v: V.Order, move: V.Move, id: Id, now: int)
    ensures VenueLater(v, CommittedVenue(v, V.Transition(v, move, id, now)))
  {
  }

  lemma VenueStepIsLater(c: Cell, w: World, a: Action)
    requires Inv(c) && Enabled(c, w, a)
    requires a.VenueDecides? || a.VenueCancels? || a.StaffMoves? || a.TakeCallback? || a.FinishCallback?
    ensures Later(c, Step(c, w, a).cell)
  {
    hide Inv, V.Serve, V.Transition, V.Release, FinishedCallback;
    match a {
      case VenueDecides(cl, newId) => ServeShape(w.shop, c.v, cl.kind.command, newId);
      case VenueCancels(_, id) => if c.v.Some? { VenueCancelIsLater(w.shop.menu, c.v.value, id, w.now); }
      case StaffMoves(move, id) => StaffIsLater(c.v.value, move, id, w.now);
      case TakeCallback(_, _, _) =>
      case FinishCallback(cb, acked, jitter) => CallbackIsLater(c.v.value, cb, w, acked, jitter);
    }
  }

  lemma PlatformStepIsLater(c: Cell, w: World, a: Action)
    requires Inv(c) && Enabled(c, w, a)
    requires a.CustomerCancels? || a.PlatformRecords? || a.FinishConfirmation? || a.FinishCancellation?
    ensures Later(c, Step(c, w, a).cell)
  {
    hide Inv;
    match a {
      case CustomerCancels => CustomerIsLater(c, w.now);
      case PlatformRecords(cb, elsewhere) => RecordIsLater(c, w, cb, elsewhere);
      case FinishConfirmation(cl, checkedAt, delivery, jitter) =>
        ConfirmationIsLater(c, w, cl, checkedAt, delivery, jitter);
      case FinishCancellation(cl, delivery, jitter) => CancellationIsLater(c, w, cl, delivery, jitter);
    }
  }

  lemma StepIsLater(c: Cell, w: World, a: Action)
    requires Inv(c) && Enabled(c, w, a)
    ensures Later(c, Step(c, w, a).cell)
  {
    if a.VenueDecides? || a.VenueCancels? || a.StaffMoves? || a.TakeCallback? || a.FinishCallback? {
      VenueStepIsLater(c, w, a);
    } else if a.CustomerCancels? || a.PlatformRecords? || a.FinishConfirmation? || a.FinishCancellation? {
      PlatformStepIsLater(c, w, a);
    }
  }

  /** `d` is reached from `c` by these steps; between them the rest of the world may change at will. */
  ghost predicate Path(c: Cell, steps: seq<(World, Action)>, d: Cell)
    decreases |steps|
  {
    if steps == [] then c == d
    else Enabled(c, steps[0].0, steps[0].1) && Path(Step(c, steps[0].0, steps[0].1).cell, steps[1..], d)
  }

  lemma {:induction false} PathIsLater(c: Cell, steps: seq<(World, Action)>, d: Cell)
    requires Inv(c) && Path(c, steps, d)
    ensures Inv(d) && Later(c, d)
    decreases |steps|
  {
    if steps == [] {
      LaterIsReflexive(c);
    } else {
      var next := Step(c, steps[0].0, steps[0].1).cell;
      StepKeepsInv(c, steps[0].0, steps[0].1);
      StepIsLater(c, steps[0].0, steps[0].1);
      PathIsLater(next, steps[1..], d);
      LaterIsTransitive(c, next, d);
    }
  }

  // ---------- consequences for any two states of one order ----------

  predicate Terminal(status: Status) {
    status in {Rejected, Expired, Cancelled, Completed}
  }

  /** A terminal status is final. */
  lemma TerminalIsFinal(c: Cell, d: Cell)
    requires Inv(c) && Inv(d) && Later(c, d) && Terminal(c.p.row.status)
    ensures d.p.row.status == c.p.row.status && d.p.history == c.p.history
  {
    var last := |c.p.history| - 1;
    assert d.p.history[last] == c.p.history[last];
    assert LegalStep(d.p.history, last);
  }

  /** Once the platform shows `cancelled`, the venue has no order, or has it cancelled, for ever. */
  lemma CancelledMeansReleased(c: Cell, d: Cell)
    requires Inv(c) && Inv(d) && Later(c, d) && c.p.row.status == Cancelled
    ensures d.p.row.status == Cancelled
    ensures d.v.Some? ==> d.v.value.status == Cancelled && d.v.value.cancelDecision == Some(CancelConfirmed)
    ensures c.p.jobs[0].attempts == 0 ==> d.v.None?
  {
    TerminalIsFinal(c, d);
    assert d.p.jobs[0] == c.p.jobs[0];
    if d.v.Some? && d.p.received != [] {
      var k := |d.p.received| - 1;
      assert d.p.received[k] == V.Log(d.v.value)[k];
      ReplayCancelled(d);
    }
  }

  /** When the recorded events replay to `cancelled`, the venue's order is cancelled. */
  lemma ReplayCancelled(c: Cell)
    requires Inv(c) && c.v.Some? && WasAccepted(c.p) && c.p.row.status == Cancelled
    ensures c.v.value.status == Cancelled
  {
    ReplayFollowsLog(c);
  }

  /** Replaying the recorded events gives the venue status that had issued exactly those events. */
  lemma ReplayFollowsLog(c: Cell)
    requires Inv(c) && c.v.Some? && c.v.value.status != Rejected
    ensures V.LogOf(Replay(c.p.received)) == V.LogOf(c.v.value.status)[..|c.p.received|]
  {
    var v, r := c.v.value, c.p.received;
    assert forall k :: 0 <= k < |r| ==> r[k] == V.Log(v)[k];
    ReplayOfKinds(r, v.status);
  }

  lemma {:induction false} ReplayOfKinds(r: seq<OrderEvent>, status: Status)
    requires status != Rejected && |r| <= |V.LogOf(status)|
    requires forall k :: 0 <= k < |r| ==> r[k].kind == V.LogOf(status)[k]
    ensures V.LogOf(Replay(r)) == V.LogOf(status)[..|r|]
    ensures r == [] || Replay(r) != Accepted
  {
    if r != [] {
      ReplayOfKinds(r[..|r| - 1], status);
    }
  }

  /** `rejected` is truthful: the venue saved that refusal and never cancels the order. */
  lemma RefusalIsFinal(c: Cell, d: Cell)
    requires Inv(c) && Inv(d) && Later(c, d) && c.p.row.cancellation == P.Refused
    ensures d.p.row.cancellation == P.Refused && d.p.row.status != Cancelled
    ensures d.v.Some? && d.v.value.cancelDecision.Some? && d.v.value.cancelDecision.value.CancelRefused?
    ensures d.v.value.status != Cancelled
  {
  }

  /** The venue's log never holds both a cancellation and the start of preparation. */
  lemma CancelOrPrepare(v: V.Order, j: nat, k: nat)
    requires V.Inv(v) && j < |v.callbacks| && k < |v.callbacks|
    ensures !(v.callbacks[j].event.kind == OrderCancelled && v.callbacks[k].event.kind == OrderPreparing)
  {
  }

  lemma SavedAnswerIsRepeated(c: Cell, d: Cell, menu: V.Menu, later: V.Menu,
                              id: Id, again: Id, now: int, repeatedAt: int)
    requires c.v.Some? && Inv(d) && d.v.Some?
    requires VenueLater(V.Cancel(menu, c.v, id, now).order.value, d.v.value)
    ensures var answer := V.Cancel(later, d.v, again, repeatedAt);
      && answer.reply == V.Cancel(menu, c.v, id, now).reply
      && answer.order == d.v && answer.menu == later
  {
  }

  /** From the first answer on, every repeat of a cancel command returns it and leaves order and stock alone. */
  lemma CancelIsRepeatable(c: Cell, w: World, cl: P.Claim, id: Id, steps: seq<(World, Action)>, d: Cell,
                           later: V.Menu, again: Id, repeatedAt: int)
    requires Inv(c) && Enabled(c, w, VenueCancels(cl, id)) && c.v.Some?
    requires Path(Step(c, w, VenueCancels(cl, id)).cell, steps, d)
    ensures d.v.Some?
    ensures var answer := V.Cancel(later, d.v, again, repeatedAt);
      && answer.reply == V.Cancel(w.shop.menu, c.v, id, w.now).reply
      && answer.order == d.v && answer.menu == later
  {
    hide Inv, Enabled, Path, V.Release;
    StepKeepsInv(c, w, VenueCancels(cl, id));
    PathIsLater(Step(c, w, VenueCancels(cl, id)).cell, steps, d);
    SavedAnswerIsRepeated(c, d, w.shop.menu, later, id, again, w.now, repeatedAt);
  }

  // ---------- confirmations stay in time ----------

  /** The confirmation is due before its deadline for as long as it is open. */
  predicate Timely(p: P.Order) {
    |p.jobs| > 0 && (p.jobs[0].Open() ==> p.jobs[0].availableAt < p.row.deadline)
  }

  lemma ConfirmationKeepsTimely(c: Cell, w: World, a: Action)
    requires Inv(c) && Timely(c.p) && Enabled(c, w, a) && a.FinishConfirmation?
    ensures Timely(Step(c, w, a).cell.p)
  {
    W.ConfirmationPolicy(a.claim.attempts, w.maxAttempts, a.claim.deadline, a.checkedAt, a.delivery, w.now, a.jitter);
    assert a.claim in c.net.claims;
    hide W.PlanConfirmation, VenueAnswered, CallbacksAreGenuine, ReceivedIsPrefix, StatusIsJustified;
  }

  lemma CancellationKeepsOthers(p: P.Order, cl: P.Claim, w: World, delivery: W.Delivery<CancelDecision>, jitter: real)
    requires 0 < cl.job < |p.jobs|
    ensures var q := FinishedCancellation(p, cl, w, delivery, jitter);
      |q.jobs| == |p.jobs| && q.jobs[0] == p.jobs[0] && q.row.deadline == p.row.deadline
  {
    hide W.PlanCancellation;
  }

  lemma CancellationKeepsTimely(c: Cell, w: World, a: Action)
    requires Inv(c) && Timely(c.p) && Enabled(c, w, a) && a.FinishCancellation?
    ensures Timely(Step(c, w, a).cell.p)
  {
    assert c.p.jobs[0].kind.ConfirmOrder?;
    assert a.claim in c.net.claims && a.claim.kind == c.p.jobs[a.claim.job].kind;
    hide Inv, FinishedCancellation;
    CancellationKeepsOthers(c.p, a.claim, w, a.cancelDelivery, a.jitter);
  }

  lemma OthersKeepTimely(p: P.Order, now: int, venue: Id, e: OrderEvent, elsewhere: bool)
    requires P.Inv(p) && Timely(p)
    ensures Timely(P.Committed(p, P.CustomerCancel(p, now)))
    ensures Timely(P.Committed(p, P.RecordEvent(p, venue, e, elsewhere, now)))
  {
  }

  lemma StepKeepsTimely(c: Cell, w: World, a: Action)
    requires Inv(c) && Timely(c.p) && Enabled(c, w, a)
    ensures Timely(Step(c, w, a).cell.p)
  {
    if a.FinishConfirmation? {
      ConfirmationKeepsTimely(c, w, a);
    } else if a.FinishCancellation? {
      CancellationKeepsTimely(c, w, a);
    } else {
      var e := if a.PlatformRecords? then a.callback.event else OrderEvent(0, 0, OrderReady);
      OthersKeepTimely(c.p, w.now, w.venue, e, a.PlatformRecords? && a.elsewhere);
      hide Inv, P.CustomerCancel, P.RecordEvent, V.Serve, V.Cancel, V.Transition, V.ClaimCallback, FinishedCallback;
    }
  }

  /** Over any run, whatever is lost or late, an open confirmation is due strictly before its deadline. */
  lemma {:induction false} ConfirmationsStayInTime(c: Cell, steps: seq<(World, Action)>, d: Cell)
    requires Inv(c) && Timely(c.p) && Path(c, steps, d)
    ensures Timely(d.p)
    decreases |steps|
  {
    hide Inv, Timely, Enabled, Step;
    if steps != [] {
      StepKeepsInv(c, steps[0].0, steps[0].1);
      StepKeepsTimely(c, steps[0].0, steps[0].1);
      ConfirmationsStayInTime(Step(c, steps[0].0, steps[0].1).cell, steps[1..], d);
    }
  }
}
