/** One order seen from outside both services: the platform's rows, the venue's rows, and everything
    that workers hold or the network still carries. */
module Protocol {
  import opened Types
  import P = Platform
  import V = Venue
  import W = Worker

  /** Sets only grow: a claim, a request or a reply may be used late, twice, or never (a crash). */
  datatype Net = Net(
    claims: set<P.Claim>,                        // every lease ever granted on a platform job
    sent: set<P.Claim>,                          // HTTP requests on their way to the venue
    decisions: set<(P.Claim, Decision)>,         // replies to confirmation requests
    cancelDecisions: set<(P.Claim, CancelDecision)>,
    callbackClaims: set<V.CallbackClaim>,
    callbacksSent: set<V.CallbackClaim>,
    acks: set<V.CallbackClaim>)                  // 204 replies

  datatype Cell = Cell(p: P.Order, v: Option<V.Order>, net: Net)

  /** What a step of one order may read of the rest of the world. */
  datatype World = World(shop: V.Shop, now: int, venue: Id, maxAttempts: int)

  const NO_NET: Net := Net({}, {}, {}, {}, {}, {}, {})

  datatype Action =
    | CustomerCancels
    | TakeJob(job: nat, token: Id, lease: int)
    | SendRequest(claim: P.Claim, checkedAt: int)
    | VenueDecides(claim: P.Claim, newId: Id)
    | VenueCancels(claim: P.Claim, eventId: Id)
    | StaffMoves(move: V.Move, eventId: Id)
    | FinishConfirmation(claim: P.Claim, checkedAt: int, delivery: W.Delivery<Decision>, jitter: real)
    | FinishCancellation(claim: P.Claim, cancelDelivery: W.Delivery<CancelDecision>, jitter: real)
    | TakeCallback(row: nat, token: Id, lease: int)
    | SendCallback(callback: V.CallbackClaim)
    | PlatformRecords(callback: V.CallbackClaim, elsewhere: bool)
    | FinishCallback(callback: V.CallbackClaim, acked: bool, jitter: real)

  datatype Next = Blocked | Next(cell: Cell, shop: V.Shop)

  /** The decisions that the platform's HTTP client lets through. */
  predicate ClientAccepts(claim: P.Claim, decision: Decision) {
    decision.Accept? ==> decision.amount == claim.amount && decision.currency == claim.currency
  }

  ghost predicate FreshToken(net: Net, token: Id) {
    forall cl :: cl in net.claims ==> cl.token != token
  }

  ghost predicate FreshCallbackToken(net: Net, token: Id) {
    forall cb :: cb in net.callbackClaims ==> cb.token != token
  }

  ghost predicate FreshEvent(c: Cell, id: Id) {
    c.v.Some? ==> V.FreshEvent(c.v.value, id)
  }

  ghost predicate Enabled(c: Cell, w: World, a: Action) {
    match a {
      case CustomerCancels => true
      case TakeJob(k, token, _) => P.Claimable(c.p, k, w.now) && FreshToken(c.net, token)
      case SendRequest(cl, checkedAt) =>
        cl in c.net.claims && (cl.kind.ConfirmOrder? ==> checkedAt <= w.now && checkedAt < cl.deadline)
      case VenueDecides(cl, _) => cl in c.net.sent && cl.kind.ConfirmOrder?
      case VenueCancels(cl, id) => cl in c.net.sent && cl.kind.CancelOrder? && FreshEvent(c, id)
      case StaffMoves(_, id) => c.v.Some? && FreshEvent(c, id)
      case FinishConfirmation(cl, checkedAt, delivery, _) =>
        && cl in c.net.claims && cl.kind.ConfirmOrder? && checkedAt <= w.now
        && (delivery.Delivered? ==> (cl, delivery.decision) in c.net.decisions && ClientAccepts(cl, delivery.decision))
      case FinishCancellation(cl, delivery, _) =>
        && cl in c.net.claims && cl.kind.CancelOrder?
        && (delivery.Delivered? ==> (cl, delivery.decision) in c.net.cancelDecisions)
      case TakeCallback(k, token, _) =>
        c.v.Some? && V.CallbackClaimable(c.v.value, k, w.now) && FreshCallbackToken(c.net, token)
      case SendCallback(cb) => cb in c.net.callbackClaims
      case PlatformRecords(cb, _) => cb in c.net.callbacksSent
      case FinishCallback(cb, acked, _) =>
        c.v.Some? && cb in c.net.callbackClaims && (acked ==> cb in c.net.acks)
    }
  }

  function FinishedConfirmation(p: P.Order, cl: P.Claim, w: World, checkedAt: int,
                                delivery: W.Delivery<Decision>, jitter: real): P.Order
  {
    match W.PlanConfirmation(cl.attempts, w.maxAttempts, cl.deadline, checkedAt, delivery, w.now, jitter) {
      case Apply => P.Committed(p, P.Resolve(p, cl.job, cl.token, delivery.decision, w.now))
      case Reschedule(at) => P.Committed(p, P.Reschedule(p, cl.job, cl.token, at))
      case GiveUp => P.Committed(p, P.GiveUp(p, cl.job, cl.token, w.now))
    }
  }

  function FinishedCancellation(p: P.Order, cl: P.Claim, w: World,
                                delivery: W.Delivery<CancelDecision>, jitter: real): P.Order
  {
    match W.PlanCancellation(cl.attempts, w.maxAttempts, delivery, w.now, jitter) {
      case Apply => P.Committed(p, P.ResolveCancellation(p, cl.job, cl.token, delivery.decision, w.now))
      case Reschedule(at) => P.Committed(p, P.Reschedule(p, cl.job, cl.token, at))
      case GiveUp => P.Committed(p, P.GiveUp(p, cl.job, cl.token, w.now))
    }
  }

  function CommittedVenue(v: V.Order, t: Tx<V.Order, V.Error>): V.Order {
    if t.Commit? then t.state else v
  }

  function FinishedCallback(v: V.Order, cb: V.CallbackClaim, w: World, acked: bool, jitter: real): V.Order {
    if acked then CommittedVenue(v, V.CompleteCallback(v, cb.row, cb.token, w.now))
    else
      var at := w.now + W.Backoff(cb.attempts, W.CALLBACK_SHIFT, jitter);
      CommittedVenue(v, V.RetryCallback(v, cb.row, cb.token, at))
  }

  ghost function Step(c: Cell, w: World, a: Action): (next: Next)
    ensures next.Next? <==> Enabled(c, w, a)
  {
    if !Enabled(c, w, a) then Blocked
    else match a {
      case CustomerCancels =>
        Next(c.(p := P.Committed(c.p, P.CustomerCancel(c.p, w.now))), w.shop)
      case TakeJob(k, token, lease) =>
        Next(c.(p := P.ClaimJob(c.p, k, token, w.now, lease),
                net := c.net.(claims := c.net.claims + {P.ClaimOf(c.p, k, token, w.now, lease)})), w.shop)
      case SendRequest(cl, _) =>
        Next(c.(net := c.net.(sent := c.net.sent + {cl})), w.shop)
      case VenueDecides(cl, newId) =>
        var answer := V.Serve(w.shop, c.v, cl.kind.command, newId);
        Next(c.(v := answer.order,
                net := if answer.reply.Commit?
                       then c.net.(decisions := c.net.decisions + {(cl, answer.reply.state)}) else c.net),
             answer.shop)
      case VenueCancels(cl, id) =>
        var answer := V.Cancel(w.shop.menu, c.v, id, w.now);
        Next(c.(v := answer.order,
                net := if answer.reply.Commit?
                       then c.net.(cancelDecisions := c.net.cancelDecisions + {(cl, answer.reply.state)}) else c.net),
             w.shop.(menu := answer.menu))
      case StaffMoves(move, id) =>
        Next(c.(v := Some(CommittedVenue(c.v.value, V.Transition(c.v.value, move, id, w.now)))), w.shop)
      case FinishConfirmation(cl, checkedAt, delivery, jitter) =>
        Next(c.(p := FinishedConfirmation(c.p, cl, w, checkedAt, delivery, jitter)), w.shop)
      case FinishCancellation(cl, delivery, jitter) =>
        Next(c.(p := FinishedCancellation(c.p, cl, w, delivery, jitter)), w.shop)
      case TakeCallback(k, token, lease) =>
        var cb := V.CallbackClaimOf(c.v.value, k, token, w.now, lease);
        Next(c.(v := Some(V.ClaimCallback(c.v.value, k, token, w.now, lease)),
                net := c.net.(callbackClaims := c.net.callbackClaims + {cb})), w.shop)
      case SendCallback(cb) =>
        Next(c.(net := c.net.(callbacksSent := c.net.callbacksSent + {cb})), w.shop)
      case PlatformRecords(cb, elsewhere) =>
        var t := P.RecordEvent(c.p, w.venue, cb.event, elsewhere, w.now);
        Next(c.(p := P.Committed(c.p, t),
                net := if t.Commit? then c.net.(acks := c.net.acks + {cb}) else c.net), w.shop)
      case FinishCallback(cb, acked, jitter) =>
        Next(c.(v := Some(FinishedCallback(c.v.value, cb, w, acked, jitter))), w.shop)
    }
  }

  // ---------- the invariant ----------

  /** The venue once accepted this order and the platform knows it. */
  predicate WasAccepted(p: P.Order) {
    || p.row.status in {Accepted, Preparing, Ready, Completed}
    || (p.row.status == Cancelled && |p.jobs| > 0 && p.jobs[0].attempts > 0)
  }

  /** The status that a sequence of events leads to from `accepted`. */
  function Replay(events: seq<OrderEvent>): Status {
    if events == [] then Accepted
    else
      var before := Replay(events[..|events| - 1]);
      var target := P.EventTransition(before, events[|events| - 1].kind);
      if target.Some? then target.value else before
  }

  predicate Edge(from: Status, to: Status) {
    match from {
      case Pending => to in {Accepted, Rejected, Expired, Cancelled}
      case Accepted => to in {Preparing, Cancelled}
      case Preparing => to == Ready
      case Ready => to == Completed
      case _ => false
    }
  }

  predicate LegalStep(history: seq<P.HistoryRow>, k: nat) {
    k + 1 < |history| ==> Edge(history[k].status, history[k + 1].status)
  }

  ghost predicate LegalWalk(history: seq<P.HistoryRow>) {
    forall k: nat :: LegalStep(history, k)
  }

  ghost predicate ClaimsAreGenuine(c: Cell) {
    && (forall cl :: cl in c.net.claims ==>
          && cl.job < |c.p.jobs|
          && cl.kind == c.p.jobs[cl.job].kind
          && c.p.jobs[cl.job].attempts > 0
          && cl.amount == c.p.row.amount && cl.currency == c.p.row.currency && cl.deadline == c.p.row.deadline)
    && (forall x, y :: x in c.net.claims && y in c.net.claims && x.token == y.token ==> x == y)
    && c.net.sent <= c.net.claims
    && (forall r :: r in c.net.decisions ==> r.0 in c.net.sent)
    && (forall r :: r in c.net.cancelDecisions ==> r.0 in c.net.sent)
  }

  ghost predicate VenueAnswered(c: Cell) {
    && (c.v.Some? ==> V.Inv(c.v.value) && |c.p.jobs| > 0 && c.p.jobs[0].attempts > 0)
    && (forall r :: r in c.net.decisions ==> c.v.Some? && c.v.value.decision == r.1)
    && (forall r :: r in c.net.cancelDecisions ==> c.v.Some? && c.v.value.cancelDecision == Some(r.1))
  }

  ghost predicate CallbacksAreGenuine(c: Cell) {
    && (forall cb :: cb in c.net.callbackClaims ==>
          && c.v.Some?
          && cb.row < |c.v.value.callbacks|
          && cb.event == c.v.value.callbacks[cb.row].event
          && (forall j :: 0 <= j < cb.row ==> !c.v.value.callbacks[j].Open()))
    && c.net.callbacksSent <= c.net.callbackClaims
    && c.net.acks <= c.net.callbacksSent
    && (forall cb :: cb in c.net.acks ==> cb.row < c.p.row.sequence)
    && (c.v.Some? ==> forall k :: 0 <= k < |c.v.value.callbacks| && !c.v.value.callbacks[k].Open() ==>
         k < c.p.row.sequence)
  }

  ghost predicate ReceivedIsPrefix(c: Cell) {
    && (c.p.received != [] ==> c.v.Some? && WasAccepted(c.p))
    && (c.v.Some? ==> c.p.received <= V.Log(c.v.value))
    && (c.v.Some? ==> forall j :: 0 <= j < |c.p.received| - 1 ==> !c.v.value.callbacks[j].Open())
  }

  ghost predicate StatusIsJustified(c: Cell) {
    && (WasAccepted(c.p) ==>
          && c.v.Some? && c.v.value.decision.Accept?
          && c.p.row.externalId == Some(c.v.value.id)
          && (|| c.p.row.status == Replay(c.p.received)
              || (c.p.row.status == Cancelled && c.p.received == [] && c.v.value.status == Cancelled)))
    && (!WasAccepted(c.p) ==> |c.p.jobs| == 1 && c.p.received == [])
    && (c.p.row.status == Rejected ==> c.v.Some? && c.v.value.decision.Reject?)
    && (c.p.row.cancellation == P.Refused ==>
          c.v.Some? && c.v.value.cancelDecision.Some? && c.v.value.cancelDecision.value.CancelRefused?)
    && LegalWalk(c.p.history)
  }

  ghost predicate Inv(c: Cell) {
    && P.Inv(c.p)
    && ClaimsAreGenuine(c) && VenueAnswered(c) && CallbacksAreGenuine(c)
    && ReceivedIsPrefix(c) && StatusIsJustified(c)
  }

  /** A new order, before anything was claimed or sent. */
  lemma CreateEstablishes(venue: Id, command: OrderCommand, amount: int, currency: Currency, deadline: int, now: int)
    ensures Inv(Cell(P.Create(venue, command, amount, currency, deadline, now), None, NO_NET))
  {
  }

  // ---------- steps of the platform ----------

  /** How the platform's rows may change apart from the statuses: jobs and events are kept, attempts grow. */
  ghost predicate Extends(p: P.Order, q: P.Order) {
    && q.row.amount == p.row.amount && q.row.currency == p.row.currency && q.row.deadline == p.row.deadline
    && q.received == p.received && q.row.sequence == p.row.sequence
    && |p.jobs| <= |q.jobs|
    && (forall k :: 0 <= k < |p.jobs| ==> q.jobs[k].kind == p.jobs[k].kind && q.jobs[k].attempts >= p.jobs[k].attempts)
  }

  lemma ExtensionKeepsInv(c: Cell, q: P.Order)
    requires Inv(c) && P.Inv(q) && Extends(c.p, q) && StatusIsJustified(c.(p := q))
    ensures Inv(c.(p := q))
  {
  }

  /** What a customer's cancellation changes: a pending order that was never claimed is closed, or a
      cancellation job is added. */
  lemma CustomerShape(p: P.Order, now: int)
    requires P.Inv(p)
    ensures var q := P.Committed(p, P.CustomerCancel(p, now));
      && Extends(p, q) && q.row.externalId == p.row.externalId
      && (q.row.cancellation == P.Refused ==> p.row.cancellation == P.Refused)
      && (|| (q.row.status == p.row.status && q.history == p.history
              && q.jobs[0].attempts == p.jobs[0].attempts
              && (|q.jobs| > 1 ==> |p.jobs| > 1 || p.row.status == Accepted))
          || (&& p.row.status == Pending && q.row.status == Cancelled && p.jobs[0].attempts == 0 == q.jobs[0].attempts
              && |q.jobs| == 1 && q.history == p.history + [P.HistoryRow(Cancelled, P.ByCustomer)]))
  {
    P.OpenConfirmationIsFirst(p);
  }

  lemma CustomerIsJustified(c: Cell, now: int)
    requires Inv(c)
    ensures StatusIsJustified(c.(p := P.Committed(c.p, P.CustomerCancel(c.p, now))))
  {
    assert P.Inv(c.p);
    var q := P.Committed(c.p, P.CustomerCancel(c.p, now));
    CustomerShape(c.p, now);
    hide P.CustomerCancel, ClaimsAreGenuine, VenueAnswered, CallbacksAreGenuine, Replay;
    if q.row.status != c.p.row.status {
      WalkExtends(c.p, q);
    }
  }

  lemma CustomerStep(c: Cell, now: int)
    requires Inv(c)
    ensures Inv(c.(p := P.Committed(c.p, P.CustomerCancel(c.p, now))))
  {
    assert P.Inv(c.p);
    P.CallKeepsInv(c.p, P.Cancel, now);
    CustomerShape(c.p, now);
    CustomerIsJustified(c, now);
    hide Inv, P.Inv, P.CustomerCancel, StatusIsJustified;
    ExtensionKeepsInv(c, P.Committed(c.p, P.CustomerCancel(c.p, now)));
  }

  lemma NewClaimKeepsInv(c: Cell, cl: P.Claim)
    requires Inv(c) && FreshToken(c.net, cl.token)
    requires cl.job < |c.p.jobs| && cl.kind == c.p.jobs[cl.job].kind && c.p.jobs[cl.job].attempts > 0
    requires cl.amount == c.p.row.amount && cl.currency == c.p.row.currency && cl.deadline == c.p.row.deadline
    ensures Inv(c.(net := c.net.(claims := c.net.claims + {cl})))
  {
    hide P.Inv, V.Inv, V.Log, WasAccepted, Replay, LegalWalk;
  }

  lemma TakeJobStep(c: Cell, k: nat, token: Id, now: int, lease: int)
    requires Inv(c) && P.Claimable(c.p, k, now) && FreshToken(c.net, token)
    ensures Inv(c.(p := P.ClaimJob(c.p, k, token, now, lease),
                   net := c.net.(claims := c.net.claims + {P.ClaimOf(c.p, k, token, now, lease)})))
  {
    var q := P.ClaimJob(c.p, k, token, now, lease);
    P.TakeKeepsInv(c.p, k, token, now, lease);
    ExtensionKeepsInv(c, q);
    NewClaimKeepsInv(c.(p := q), P.ClaimOf(c.p, k, token, now, lease));
  }

  lemma SendKeepsInv(c: Cell, cl: P.Claim)
    requires Inv(c) && cl in c.net.claims
    ensures Inv(c.(net := c.net.(sent := c.net.sent + {cl})))
  {
  }

  /** A status change along a legal edge keeps the walk. */
  lemma WalkExtends(p: P.Order, q: P.Order)
    requires P.Inv(p) && LegalWalk(p.history) && Edge(p.row.status, q.row.status)
    requires |q.history| == |p.history| + 1 && q.history[..|p.history|] == p.history
    requires q.history[|p.history|].status == q.row.status
    ensures LegalWalk(q.history)
  {
    forall k: nat ensures LegalStep(q.history, k) {
      if k + 1 < |q.history| {
        assert q.history[k] == p.history[k];
        assert LegalStep(p.history, k);
      }
    }
  }

  lemma ResolveStep(c: Cell, cl: P.Claim, decision: Decision, now: int)
    requires Inv(c) && cl in c.net.claims && cl.kind.ConfirmOrder? && (cl, decision) in c.net.decisions
    ensures Inv(c.(p := P.Committed(c.p, P.Resolve(c.p, cl.job, cl.token, decision, now))))
  {
    if P.Owns(c.p, cl.job, cl.token) {
      var q := P.Resolve(c.p, cl.job, cl.token, decision, now).state;
      P.ResolveKeepsInv(c.p, cl.job, cl.token, decision, now);
      assert c.v.Some? && c.v.value.decision == decision;
      WalkExtends(c.p, q);
      ExtensionKeepsInv(c, q);
    }
  }

  lemma RescheduleStep(c: Cell, cl: P.Claim, at: int, now: int)
    requires Inv(c) && cl in c.net.claims
    ensures Inv(c.(p := P.Committed(c.p, P.Reschedule(c.p, cl.job, cl.token, at))))
  {
    if P.Owns(c.p, cl.job, cl.token) {
      P.RescheduleKeepsInv(c.p, cl.job, cl.token, at);
      ExtensionKeepsInv(c, P.Reschedule(c.p, cl.job, cl.token, at).state);
    }
  }

  lemma GiveUpConfirmation(c: Cell, cl: P.Claim, now: int)
    requires Inv(c) && cl in c.net.claims && cl.kind.ConfirmOrder? && P.Owns(c.p, cl.job, cl.token)
    ensures Inv(c.(p := P.GiveUp(c.p, cl.job, cl.token, now).state))
  {
    var q := P.GiveUp(c.p, cl.job, cl.token, now).state;
    P.GiveUpKeepsInv(c.p, cl.job, cl.token, now);
    WalkExtends(c.p, q);
    ExtensionKeepsInv(c, q);
  }

  lemma GiveUpCancellation(c: Cell, cl: P.Claim, now: int)
    requires Inv(c) && cl in c.net.claims && cl.kind.CancelOrder? && P.Owns(c.p, cl.job, cl.token)
    ensures Inv(c.(p := P.GiveUp(c.p, cl.job, cl.token, now).state))
  {
    var q := P.GiveUp(c.p, cl.job, cl.token, now).state;
    P.GiveUpKeepsInv(c.p, cl.job, cl.token, now);
    assert cl.job > 0 && WasAccepted(q);
    ExtensionKeepsInv(c, q);
  }

  lemma GiveUpStep(c: Cell, cl: P.Claim, now: int)
    requires Inv(c) && cl in c.net.claims
    ensures Inv(c.(p := P.Committed(c.p, P.GiveUp(c.p, cl.job, cl.token, now))))
  {
    if P.Owns(c.p, cl.job, cl.token) {
      if cl.kind.ConfirmOrder? {
        GiveUpConfirmation(c, cl, now);
      } else {
        GiveUpCancellation(c, cl, now);
      }
    }
  }

  lemma CancelledLog(c: Cell)
    requires Inv(c) && c.v.Some? && c.v.value.status == Cancelled && c.p.received != []
    ensures Replay(c.p.received) == Cancelled
  {
  }

  lemma CancelledIsFinalBoth(c: Cell)
    requires Inv(c) && c.v.Some? && c.v.value.status == Cancelled && WasAccepted(c.p)
    ensures c.p.row.status == if c.p.row.cancellation == P.Confirmed then Cancelled else Accepted
  {
    if c.p.received != [] {
      CancelledLog(c);
    }
  }

  /** The unguarded `status='cancelled'` update only ever runs on an accepted order. */
  lemma CancelledFromAccepted(c: Cell, cl: P.Claim)
    requires Inv(c) && (cl, CancelConfirmed) in c.net.cancelDecisions
    requires c.p.row.cancellation == P.Requested
    ensures c.p.row.status == Accepted && c.v.Some? && c.v.value.status == Cancelled
  {
    assert c.v.Some? && c.v.value.cancelDecision == Some(CancelConfirmed);
    CancelledIsFinalBoth(c);
  }

  lemma CancellationIsJustified(c: Cell, cl: P.Claim, decision: CancelDecision, now: int)
    requires Inv(c) && cl in c.net.claims && cl.kind.CancelOrder? && (cl, decision) in c.net.cancelDecisions
    requires P.Owns(c.p, cl.job, cl.token)
    ensures StatusIsJustified(c.(p := P.ResolveCancellation(c.p, cl.job, cl.token, decision, now).state))
  {
    var q := P.ResolveCancellation(c.p, cl.job, cl.token, decision, now).state;
    assert P.Inv(c.p) && cl.job > 0 && c.v.Some? && c.v.value.cancelDecision == Some(decision);
    if decision.CancelConfirmed? && c.p.row.cancellation == P.Requested {
      CancelledFromAccepted(c, cl);
      WalkExtends(c.p, q);
    }
    hide ClaimsAreGenuine, VenueAnswered, CallbacksAreGenuine, ReceivedIsPrefix, LegalWalk, Replay;
  }

  lemma ResolveCancellationStep(c: Cell, cl: P.Claim, decision: CancelDecision, now: int)
    requires Inv(c) && cl in c.net.claims && cl.kind.CancelOrder? && (cl, decision) in c.net.cancelDecisions
    ensures Inv(c.(p := P.Committed(c.p, P.ResolveCancellation(c.p, cl.job, cl.token, decision, now))))
  {
    if P.Owns(c.p, cl.job, cl.token) {
      var q := P.ResolveCancellation(c.p, cl.job, cl.token, decision, now).state;
      P.ResolveCancellationKeepsInv(c.p, cl.job, cl.token, decision, now);
      CancellationIsJustified(c, cl, decision, now);
      hide Inv, P.Inv, StatusIsJustified;
      ExtensionKeepsInv(c, q);
    }
  }

  /** A callback that the platform records for the first time is the next event of the venue's log. */
  lemma RecordedIsNext(c: Cell, cb: V.CallbackClaim)
    requires Inv(c) && cb in c.net.callbacksSent && cb.event.sequence == c.p.row.sequence + 1
    ensures c.v.Some? && cb.row == |c.p.received| < |c.v.value.callbacks|
    ensures cb.event == V.Log(c.v.value)[|c.p.received|]
    ensures c.p.received + [cb.event] <= V.Log(c.v.value)
  {
  }

  ghost function Recorded(c: Cell, cb: V.CallbackClaim, target: Status, now: int): Cell {
    c.(p := P.ApplyEvent(c.p, cb.event, target, now), net := c.net.(acks := c.net.acks + {cb}))
  }

  lemma RecordedSequence(p: P.Order, e: OrderEvent, target: Status, now: int)
    ensures var q := P.ApplyEvent(p, e, target, now);
      && q.row.sequence == e.sequence && |q.jobs| == |p.jobs|
      && (forall k :: 0 <= k < |p.jobs| ==>
            q.jobs[k].attempts == p.jobs[k].attempts && q.jobs[k].kind == p.jobs[k].kind)
      && q.row.amount == p.row.amount && q.row.currency == p.row.currency && q.row.deadline == p.row.deadline
  {
  }

  lemma RecordedClaims(c: Cell, cb: V.CallbackClaim, target: Status, now: int)
    requires ClaimsAreGenuine(c) && VenueAnswered(c)
    ensures var d := Recorded(c, cb, target, now); ClaimsAreGenuine(d) && VenueAnswered(d)
  {
    RecordedSequence(c.p, cb.event, target, now);
    hide P.ApplyEvent, V.Inv;
  }

  lemma RecordedCallbacks(c: Cell, cb: V.CallbackClaim, target: Status, now: int)
    requires Inv(c) && cb in c.net.callbacksSent && cb.event.sequence == c.p.row.sequence + 1
    ensures CallbacksAreGenuine(Recorded(c, cb, target, now))
  {
    RecordedIsNext(c, cb);
    RecordedSequence(c.p, cb.event, target, now);
    assert |c.p.received| == c.p.row.sequence;
    hide P.ApplyEvent, P.Inv, V.Inv, V.Log, ClaimsAreGenuine, VenueAnswered, ReceivedIsPrefix, StatusIsJustified;
  }

  lemma AppliedShape(p: P.Order, e: OrderEvent, target: Status, now: int)
    ensures var q := P.ApplyEvent(p, e, target, now);
      && q.received == p.received + [e] && q.received[..|p.received|] == p.received
      && q.row.externalId == p.row.externalId && q.row.status == target
      && (q.row.cancellation == P.Refused ==> p.row.cancellation == P.Refused)
      && (target == p.row.status ==> q.history == p.history)
      && |q.jobs| == |p.jobs| && (forall k :: 0 <= k < |p.jobs| ==> q.jobs[k].attempts == p.jobs[k].attempts)
  {
  }

  /** The facts about one recorded event that its justification rests on. */
  lemma RecordedFacts(c: Cell, cb: V.CallbackClaim, target: Status, now: int)
    requires Inv(c) && cb in c.net.callbacksSent && cb.event.sequence == c.p.row.sequence + 1
    requires P.EventTransition(c.p.row.status, cb.event.kind) == Some(target)
    ensures var q := P.ApplyEvent(c.p, cb.event, target, now);
      && WasAccepted(c.p) && WasAccepted(q)
      && q.received == c.p.received + [cb.event] && q.received[..|c.p.received|] == c.p.received
      && q.row.externalId == c.p.row.externalId && q.row.status == target
      && (q.row.cancellation == P.Refused ==> c.p.row.cancellation == P.Refused)
      && (target == c.p.row.status ==> q.history == c.p.history)
      && (target != c.p.row.status ==> Edge(c.p.row.status, target))
    ensures target == Cancelled ==> c.p.received == []
  {
    RecordedIsNext(c, cb);
    AppliedShape(c.p, cb.event, target, now);
    assert V.LogOf(c.v.value.status)[cb.row] == cb.event.kind;
    hide P.ApplyEvent, ClaimsAreGenuine, CallbacksAreGenuine, LegalWalk;
  }

  lemma RecordedStatus(c: Cell, cb: V.CallbackClaim, target: Status, now: int)
    requires Inv(c) && cb in c.net.callbacksSent && cb.event.sequence == c.p.row.sequence + 1
    requires P.EventTransition(c.p.row.status, cb.event.kind) == Some(target)
    ensures var d := Recorded(c, cb, target, now); ReceivedIsPrefix(d) && StatusIsJustified(d)
  {
    RecordedIsNext(c, cb);
    RecordedFacts(c, cb, target, now);
    var p, q := c.p, P.ApplyEvent(c.p, cb.event, target, now);
    if target != p.row.status {
      WalkExtends(p, q);
    }
    hide ClaimsAreGenuine, CallbacksAreGenuine, V.Inv, P.Inv, WasAccepted, LegalWalk;
    RecordedPrefix(c, cb, target, now);
  }

  lemma RecordedPrefix(c: Cell, cb: V.CallbackClaim, target: Status, now: int)
    requires Inv(c) && cb in c.net.callbacksSent && cb.event.sequence == c.p.row.sequence + 1
    requires WasAccepted(P.ApplyEvent(c.p, cb.event, target, now))
    ensures ReceivedIsPrefix(Recorded(c, cb, target, now))
  {
  }

  lemma RecordApplies(c: Cell, w: World, cb: V.CallbackClaim, target: Status)
    requires Inv(c) && cb in c.net.callbacksSent && cb.event.sequence == c.p.row.sequence + 1
    requires P.EventTransition(c.p.row.status, cb.event.kind) == Some(target)
    requires P.Inv(P.ApplyEvent(c.p, cb.event, target, w.now))
    ensures Inv(Recorded(c, cb, target, w.now))
  {
    RecordedClaims(c, cb, target, w.now);
    RecordedCallbacks(c, cb, target, w.now);
    RecordedStatus(c, cb, target, w.now);
  }

  /** A repeated delivery is acknowledged only when its event is already among the recorded ones. */
  lemma DuplicateIsRecorded(c: Cell, cb: V.CallbackClaim)
    requires Inv(c) && cb in c.net.callbacksSent && P.FindEvent(c.p.received, cb.event.id).Some?
    ensures cb.row < c.p.row.sequence && P.FindEvent(c.p.received, cb.event.id).value == cb.event
  {
  }

  lemma AckKeepsInv(c: Cell, cb: V.CallbackClaim)
    requires Inv(c) && cb in c.net.callbacksSent && cb.row < c.p.row.sequence
    ensures Inv(c.(net := c.net.(acks := c.net.acks + {cb})))
  {
  }

  lemma RecordStep(c: Cell, w: World, cb: V.CallbackClaim, elsewhere: bool)
    requires Inv(c) && cb in c.net.callbacksSent
    ensures var t := P.RecordEvent(c.p, w.venue, cb.event, elsewhere, w.now);
            t.Commit? ==> Inv(c.(p := t.state, net := c.net.(acks := c.net.acks + {cb})))
  {
    var e := cb.event;
    var t := P.RecordEvent(c.p, w.venue, e, elsewhere, w.now);
    if t.Commit? {
      if P.FindEvent(c.p.received, e.id).Some? {
        DuplicateIsRecorded(c, cb);
        AckKeepsInv(c, cb);
      } else {
        var target := P.EventTransition(c.p.row.status, e.kind).value;
        P.ApplyKeepsInv(c.p, e, target, w.now);
        RecordApplies(c, w, cb, target);
      }
    }
  }

  // ---------- steps of the venue ----------

  /** A stored decision is repeated; a new order starts without events and with the replied decision. */
  lemma ServeShape(shop: V.Shop, existing: Option<V.Order>, command: OrderCommand, newId: Id)
    ensures var answer := V.Serve(shop, existing, command, newId);
      && (existing.Some? ==> answer.order == existing)
      && (existing.Some? && answer.reply.Commit? ==> answer.reply.state == existing.value.decision)
      && (existing.None? && answer.order.Some? ==>
            && answer.reply == Commit(answer.order.value.decision)
            && answer.order.value.callbacks == [] && answer.order.value.cancelDecision.None?)
      && (answer.order.None? ==> answer.reply.Rollback?)
  {
  }

  lemma VenueDecidesStep(c: Cell, shop: V.Shop, cl: P.Claim, newId: Id)
    requires Inv(c) && cl in c.net.sent && cl.kind.ConfirmOrder?
    ensures var answer := V.Serve(shop, c.v, cl.kind.command, newId);
      var d := c.(v := answer.order);
      && Inv(d)
      && (answer.reply.Commit? ==>
            Inv(d.(net := c.net.(decisions := c.net.decisions + {(cl, answer.reply.state)}))))
  {
    V.ServeKeepsInv(shop, c.v, cl.kind.command, newId);
    ServeShape(shop, c.v, cl.kind.command, newId);
    assert cl in c.net.claims && cl.job == 0;
    var answer := V.Serve(shop, c.v, cl.kind.command, newId);
    if c.v.None? && answer.order.Some? {
      assert c.net.decisions == {} && c.net.cancelDecisions == {} && c.net.callbackClaims == {};
    }
  }

  /** How the venue's rows may change: decisions stay, the log grows, callbacks close once delivered. */
  ghost predicate Advances(c: Cell, v: V.Order, u: V.Order) {
    && u.id == v.id && u.decision == v.decision
    && (v.cancelDecision.Some? ==> u.cancelDecision == v.cancelDecision)
    && (v.status == Cancelled ==> u.status == Cancelled)
    && |v.callbacks| <= |u.callbacks|
    && (forall k :: 0 <= k < |v.callbacks| ==>
          u.callbacks[k].event == v.callbacks[k].event && (!v.callbacks[k].Open() ==> !u.callbacks[k].Open()))
    && (forall k :: 0 <= k < |u.callbacks| && !u.callbacks[k].Open() ==> k < c.p.row.sequence)
  }

  lemma AdvanceKeepsInv(c: Cell, u: V.Order)
    requires Inv(c) && c.v.Some? && V.Inv(u) && Advances(c, c.v.value, u)
    ensures Inv(c.(v := Some(u)))
  {
  }

  lemma ReplyKeepsInv(c: Cell, cl: P.Claim, decision: CancelDecision)
    requires Inv(c) && cl in c.net.sent && c.v.Some? && c.v.value.cancelDecision == Some(decision)
    ensures Inv(c.(net := c.net.(cancelDecisions := c.net.cancelDecisions + {(cl, decision)})))
  {
  }

  lemma VenueIsSound(c: Cell)
    requires Inv(c) && c.v.Some?
    ensures V.Inv(c.v.value)
    ensures forall k :: 0 <= k < |c.v.value.callbacks| && !c.v.value.callbacks[k].Open() ==> k < c.p.row.sequence
    ensures c.v.value.status == Cancelled ==> c.v.value.cancelDecision.Some?
    ensures c.v.value.status in {Preparing, Ready, Completed, Accepted, Rejected, Cancelled}
  {
  }

  lemma VenueCancelsStep(c: Cell, menu: V.Menu, cl: P.Claim, id: Id, now: int)
    requires Inv(c) && cl in c.net.sent && FreshEvent(c, id)
    ensures var answer := V.Cancel(menu, c.v, id, now);
      var d := c.(v := answer.order);
      if answer.reply.Commit?
      then Inv(d.(net := c.net.(cancelDecisions := c.net.cancelDecisions + {(cl, answer.reply.state)})))
      else d == c
  {
    hide Inv, V.Release, V.Inv, P.Inv;
    if c.v.Some? {
      VenueIsSound(c);
    }
    V.CancelKeepsInv(menu, c.v, id, now);
    var answer := V.Cancel(menu, c.v, id, now);
    if c.v.Some? {
      AdvanceKeepsInv(c, answer.order.value);
      ReplyKeepsInv(c.(v := answer.order), cl, answer.reply.state);
    }
  }

  lemma StaffStep(c: Cell, move: V.Move, id: Id, now: int)
    requires Inv(c) && c.v.Some? && FreshEvent(c, id)
    ensures Inv(c.(v := Some(CommittedVenue(c.v.value, V.Transition(c.v.value, move, id, now)))))
  {
    hide Inv, V.Inv, P.Inv;
    VenueIsSound(c);
    V.TransitionKeepsInv(c.v.value, move, id, now);
    AdvanceKeepsInv(c, CommittedVenue(c.v.value, V.Transition(c.v.value, move, id, now)));
  }

  lemma TakeCallbackStep(c: Cell, k: nat, token: Id, now: int, lease: int)
    requires Inv(c) && c.v.Some? && V.CallbackClaimable(c.v.value, k, now)
    ensures var cb := V.CallbackClaimOf(c.v.value, k, token, now, lease);
            Inv(c.(v := Some(V.ClaimCallback(c.v.value, k, token, now, lease)),
                   net := c.net.(callbackClaims := c.net.callbackClaims + {cb})))
  {
    var u := V.ClaimCallback(c.v.value, k, token, now, lease);
    V.ClaimKeepsInv(c.v.value, k, token, now, lease);
    AdvanceKeepsInv(c, u);
    CallbackClaimKeepsInv(c.(v := Some(u)), V.CallbackClaimOf(c.v.value, k, token, now, lease));
  }

  lemma CallbackClaimKeepsInv(c: Cell, cb: V.CallbackClaim)
    requires Inv(c) && c.v.Some? && cb.row < |c.v.value.callbacks| && cb.event == c.v.value.callbacks[cb.row].event
    requires forall j :: 0 <= j < cb.row ==> !c.v.value.callbacks[j].Open()
    ensures Inv(c.(net := c.net.(callbackClaims := c.net.callbackClaims + {cb})))
  {
  }

  lemma SendCallbackKeepsInv(c: Cell, cb: V.CallbackClaim)
    requires Inv(c) && cb in c.net.callbackClaims
    ensures Inv(c.(net := c.net.(callbacksSent := c.net.callbacksSent + {cb})))
  {
  }

  lemma CompleteStep(c: Cell, cb: V.CallbackClaim, now: int)
    requires Inv(c) && c.v.Some? && cb in c.net.acks
    ensures Inv(c.(v := Some(CommittedVenue(c.v.value, V.CompleteCallback(c.v.value, cb.row, cb.token, now)))))
  {
    if V.OwnsCallback(c.v.value, cb.row, cb.token) {
      V.CompleteKeepsInv(c.v.value, cb.row, cb.token, now);
      AdvanceKeepsInv(c, V.CompleteCallback(c.v.value, cb.row, cb.token, now).state);
    }
  }

  lemma RetryStep(c: Cell, cb: V.CallbackClaim, at: int)
    requires Inv(c) && c.v.Some?
    ensures Inv(c.(v := Some(CommittedVenue(c.v.value, V.RetryCallback(c.v.value, cb.row, cb.token, at)))))
  {
    if V.OwnsCallback(c.v.value, cb.row, cb.token) {
      V.RetryKeepsInv(c.v.value, cb.row, cb.token, at);
      AdvanceKeepsInv(c, V.RetryCallback(c.v.value, cb.row, cb.token, at).state);
    }
  }

  lemma FinishedConfirmationKeepsInv(c: Cell, w: World, cl: P.Claim, checkedAt: int,
                                     delivery: W.Delivery<Decision>, jitter: real)
    requires Inv(c) && Enabled(c, w, FinishConfirmation(cl, checkedAt, delivery, jitter))
    ensures Inv(c.(p := FinishedConfirmation(c.p, cl, w, checkedAt, delivery, jitter)))
  {
    match W.PlanConfirmation(cl.attempts, w.maxAttempts, cl.deadline, checkedAt, delivery, w.now, jitter) {
      case Apply => ResolveStep(c, cl, delivery.decision, w.now);
      case Reschedule(at) => RescheduleStep(c, cl, at, w.now);
      case GiveUp => GiveUpStep(c, cl, w.now);
    }
  }

  lemma FinishedCancellationKeepsInv(c: Cell, w: World, cl: P.Claim,
                                     delivery: W.Delivery<CancelDecision>, jitter: real)
    requires Inv(c) && Enabled(c, w, FinishCancellation(cl, delivery, jitter))
    ensures Inv(c.(p := FinishedCancellation(c.p, cl, w, delivery, jitter)))
  {
    match W.PlanCancellation(cl.attempts, w.maxAttempts, delivery, w.now, jitter) {
      case Apply => ResolveCancellationStep(c, cl, delivery.decision, w.now);
      case Reschedule(at) => RescheduleStep(c, cl, at, w.now);
      case GiveUp => GiveUpStep(c, cl, w.now);
    }
  }

  lemma FinishedCallbackKeepsInv(c: Cell, w: World, cb: V.CallbackClaim, acked: bool, jitter: real)
    requires Inv(c) && c.v.Some? && (acked ==> cb in c.net.acks)
    ensures Inv(c.(v := Some(FinishedCallback(c.v.value, cb, w, acked, jitter))))
  {
    var at := w.now + W.Backoff(cb.attempts, W.CALLBACK_SHIFT, jitter);
    var u := FinishedCallback(c.v.value, cb, w, acked, jitter);
    if acked {
      assert u == CommittedVenue(c.v.value, V.CompleteCallback(c.v.value, cb.row, cb.token, w.now));
      CompleteStep(c, cb, w.now);
    } else {
      assert u == CommittedVenue(c.v.value, V.RetryCallback(c.v.value, cb.row, cb.token, at));
      RetryStep(c, cb, at);
    }
  }

  /** Every step of every participant keeps the invariant. */
  lemma StepKeepsInv(c: Cell, w: World, a: Action)
    requires Inv(c) && Enabled(c, w, a)
    ensures Inv(Step(c, w, a).cell)
  {
    hide Inv, FinishedConfirmation, FinishedCancellation, FinishedCallback;
    hide V.Serve, V.Cancel, V.Transition, P.RecordEvent;
    match a {
      case CustomerCancels => CustomerStep(c, w.now);
      case TakeJob(k, token, lease) => TakeJobStep(c, k, token, w.now, lease);
      case SendRequest(cl, _) => SendKeepsInv(c, cl);
      case VenueDecides(cl, newId) => VenueDecidesStep(c, w.shop, cl, newId);
      case VenueCancels(cl, id) => VenueCancelsStep(c, w.shop.menu, cl, id, w.now);
      case StaffMoves(move, id) => StaffStep(c, move, id, w.now);
      case TakeCallback(k, token, lease) => TakeCallbackStep(c, k, token, w.now, lease);
      case SendCallback(cb) => SendCallbackKeepsInv(c, cb);
      case PlatformRecords(cb, elsewhere) => RecordStep(c, w, cb, elsewhere);
      case FinishConfirmation(cl, checkedAt, delivery, jitter) =>
        FinishedConfirmationKeepsInv(c, w, cl, checkedAt, delivery, jitter);
      case FinishCancellation(cl, delivery, jitter) =>
        FinishedCancellationKeepsInv(c, w, cl, delivery, jitter);
      case FinishCallback(cb, acked, jitter) =>
        FinishedCallbackKeepsInv(c, w, cb, acked, jitter);
    }
  }
}
