/** The platform's side of one order: every committed transaction as a function on the order's rows. */
module Platform {
  import opened Types

  datatype Cancellation = NotRequested | Requested | Confirmed | Refused | Failed

  datatype Source = ByCustomer | ByPlatform | ByVenue

  datatype HistoryRow = HistoryRow(status: Status, source: Source)

  datatype JobKind = ConfirmOrder(command: OrderCommand) | CancelOrder

  datatype JobError = CancelledBeforeDispatch | ConfirmationTimedOut | CancellationUndelivered

  /** A row of `outbox`. */
  datatype OutboxRow = OutboxRow(
    kind: JobKind, attempts: nat, availableAt: int,
    lockedUntil: Option<int>, token: Option<Id>,
    processedAt: Option<int>, lastError: Option<JobError>)
  {
    predicate Open() { processedAt.None? }
  }

  /** The columns of `orders` that the protocol reads or writes. */
  datatype OrderRow = OrderRow(
    venue: Id, amount: int, currency: Currency, deadline: int,
    status: Status, cancellation: Cancellation, sequence: int,
    externalId: Option<Id>, reason: Option<RejectReason>)

  /** One order with its rows in `outbox`, `order_status_history` and `partner_order_events`,
      each in insertion order. */
  datatype Order = Order(
    row: OrderRow, jobs: seq<OutboxRow>, history: seq<HistoryRow>, received: seq<OrderEvent>)

  datatype Error =
    | NotFound | LeaseLost | NotAllowed | VenueMismatch | EventConflict | SequenceConflict | InvalidTransition

  /** What a worker holds after claiming a job. */
  datatype Claim = Claim(
    job: nat, kind: JobKind, token: Id, attempts: nat, until: int,
    deadline: int, amount: int, currency: Currency)

  function NewJob(kind: JobKind, now: int): OutboxRow {
    OutboxRow(kind, 0, now, None, None, None, None)
  }

  /** A freshly inserted order with its confirmation job. */
  function Create(venue: Id, command: OrderCommand, amount: int, currency: Currency, deadline: int, now: int): Order {
    Order(
      OrderRow(venue, amount, currency, deadline, Pending, NotRequested, 0, None, None),
      [NewJob(ConfirmOrder(command), now)],
      [HistoryRow(Pending, ByCustomer)],
      [])
  }

  // ---------- orders.go: CancelOrder ----------

  /** The open confirmation job, if any: the row that `SELECT ... FOR UPDATE` returns. */
  function OpenConfirmation(jobs: seq<OutboxRow>): (k: Option<nat>)
    ensures k.Some? ==> k.value < |jobs| && jobs[k.value].kind.ConfirmOrder? && jobs[k.value].Open()
    ensures k.None? ==> forall i :: 0 <= i < |jobs| ==> !(jobs[i].kind.ConfirmOrder? && jobs[i].Open())
  {
    if jobs == [] then None
    else if jobs[|jobs| - 1].kind.ConfirmOrder? && jobs[|jobs| - 1].Open() then Some(|jobs| - 1)
    else OpenConfirmation(jobs[..|jobs| - 1])
  }

  /** `UPDATE outbox SET processed_at=now(), last_error=...` on every open confirmation row. */
  function CloseConfirmations(jobs: seq<OutboxRow>, now: int): seq<OutboxRow> {
    seq(|jobs|, i requires 0 <= i < |jobs| =>
      if jobs[i].kind.ConfirmOrder? && jobs[i].Open()
      then jobs[i].(processedAt := Some(now), lastError := Some(CancelledBeforeDispatch))
      else jobs[i])
  }

  function CustomerCancel(p: Order, now: int): Tx<Order, Error> {
    var status, cancellation := p.row.status, p.row.cancellation;
    if status == Cancelled && cancellation == Confirmed then Commit(p)
    else if cancellation == Requested || cancellation == Refused then Commit(p)
    else if status == Pending then
      var k := OpenConfirmation(p.jobs);
      if k.None? || p.jobs[k.value].attempts != 0 || p.jobs[k.value].token.Some? then Rollback(NotAllowed)
      else Commit(p.(
        row := p.row.(status := Cancelled, cancellation := Confirmed),
        jobs := CloseConfirmations(p.jobs, now),
        history := p.history + [HistoryRow(Cancelled, ByCustomer)]))
    else if status == Accepted && (cancellation == NotRequested || cancellation == Failed) then
      Commit(p.(row := p.row.(cancellation := Requested), jobs := p.jobs + [NewJob(CancelOrder, now)]))
    else Rollback(NotAllowed)
  }

  // ---------- outbox.go ----------

  /** The candidates of the claim query. */
  predicate Claimable(p: Order, k: nat, now: int) {
    && k < |p.jobs|
    && p.jobs[k].Open()
    && p.jobs[k].availableAt <= now
    && (p.jobs[k].lockedUntil.None? || p.jobs[k].lockedUntil.value < now)
    && match p.jobs[k].kind {
         case ConfirmOrder(_) => p.row.status == Pending
         case CancelOrder => p.row.cancellation == Requested
       }
  }

  function ClaimJob(p: Order, k: nat, token: Id, now: int, lease: int): Order
    requires k < |p.jobs|
  {
    p.(jobs := p.jobs[k := p.jobs[k].(
      lockedUntil := Some(now + lease), token := Some(token), attempts := p.jobs[k].attempts + 1)])
  }

  /** The columns the claim query returns to its worker. */
  function ClaimOf(p: Order, k: nat, token: Id, now: int, lease: int): Claim
    requires k < |p.jobs|
  {
    Claim(k, p.jobs[k].kind, token, p.jobs[k].attempts + 1, now + lease,
          p.row.deadline, p.row.amount, p.row.currency)
  }

  /** `WHERE id=$1 AND lock_token=$2 AND processed_at IS NULL` */
  predicate Owns(p: Order, k: nat, token: Id) {
    k < |p.jobs| && p.jobs[k].token == Some(token) && p.jobs[k].Open()
  }

  function FinishJob(p: Order, k: nat, now: int, lastError: Option<JobError>): Order
    requires k < |p.jobs|
  {
    p.(jobs := p.jobs[k := p.jobs[k].(
      processedAt := Some(now), lockedUntil := None, token := None, lastError := lastError)])
  }

  function Move(p: Order, status: Status, source: Source): Order {
    p.(row := p.row.(status := status), history := p.history + [HistoryRow(status, source)])
  }

  function Resolve(p: Order, k: nat, token: Id, decision: Decision, now: int): Tx<Order, Error> {
    if !Owns(p, k, token) then Rollback(LeaseLost)
    else
      var q := FinishJob(p, k, now, p.jobs[k].lastError);
      if p.row.status != Pending then Commit(q)
      else match decision {
        case Accept(id, _, _) =>
          Commit(Move(q.(row := q.row.(externalId := Some(id), reason := None)), Accepted, ByVenue))
        case Reject(reason, _, _) =>
          Commit(Move(q.(row := q.row.(externalId := None, reason := Some(reason))), Rejected, ByVenue))
      }
  }

  function ResolveCancellation(p: Order, k: nat, token: Id, decision: CancelDecision, now: int): Tx<Order, Error> {
    if !Owns(p, k, token) then Rollback(LeaseLost)
    else
      var q := FinishJob(p, k, now, p.jobs[k].lastError);
      if p.row.cancellation != Requested then Commit(q)
      else match decision {
        case CancelConfirmed =>
          Commit(Move(q.(row := q.row.(cancellation := Confirmed)), Cancelled, ByVenue))
        case CancelRefused(_) =>
          Commit(q.(row := q.row.(cancellation := Refused)))
      }
  }

  function Reschedule(p: Order, k: nat, token: Id, availableAt: int): Tx<Order, Error> {
    if !Owns(p, k, token) then Rollback(LeaseLost)
    else Commit(p.(jobs := p.jobs[k := p.jobs[k].(
      availableAt := availableAt, lockedUntil := None, token := None)]))
  }

  function GiveUp(p: Order, k: nat, token: Id, now: int): Tx<Order, Error> {
    if !Owns(p, k, token) then Rollback(LeaseLost)
    else match p.jobs[k].kind {
      case CancelOrder =>
        var q := FinishJob(p, k, now, Some(CancellationUndelivered));
        Commit(if p.row.cancellation == Requested then q.(row := q.row.(cancellation := Failed)) else q)
      case ConfirmOrder(_) =>
        var q := FinishJob(p, k, now, Some(ConfirmationTimedOut));
        Commit(if p.row.status == Pending then Move(q, Expired, ByPlatform) else q)
    }
  }

  // ---------- events.go ----------

  function EventTransition(status: Status, kind: EventKind): Option<Status> {
    match kind {
      case OrderPreparing => if status == Accepted then Some(Preparing) else None
      case OrderReady => if status == Preparing then Some(Ready) else None
      case OrderCompleted => if status == Ready then Some(Completed) else None
      case OrderCancelled =>
        if status == Accepted || status == Preparing || status == Cancelled then Some(Cancelled) else None
    }
  }

  /** The row of `partner_order_events` with this event id, among the rows of one order. */
  function FindEvent(received: seq<OrderEvent>, id: Id): (e: Option<OrderEvent>)
    ensures e.Some? ==> e.value in received && e.value.id == id
    ensures e.None? ==> forall i :: 0 <= i < |received| ==> received[i].id != id
  {
    if received == [] then None
    else if received[|received| - 1].id == id then Some(received[|received| - 1])
    else FindEvent(received[..|received| - 1], id)
  }

  /** `UPDATE outbox SET processed_at=COALESCE(processed_at,now()), ...` on every cancellation row. */
  function CloseCancellations(jobs: seq<OutboxRow>, now: int): seq<OutboxRow> {
    seq(|jobs|, i requires 0 <= i < |jobs| =>
      if jobs[i].kind.CancelOrder?
      then jobs[i].(processedAt := if jobs[i].Open() then Some(now) else jobs[i].processedAt,
                    lockedUntil := None, token := None)
      else jobs[i])
  }

  /** `RecordOrderEvent`. `elsewhere` says that another order already recorded this event id. */
  function RecordEvent(p: Order, venue: Id, e: OrderEvent, elsewhere: bool, now: int): Tx<Order, Error> {
    if p.row.venue != venue then Rollback(VenueMismatch)
    else
      var existing := FindEvent(p.received, e.id);
      if existing.Some? then (if existing.value == e then Commit(p) else Rollback(EventConflict))
      else if elsewhere then Rollback(EventConflict)
      else if e.sequence != p.row.sequence + 1 then Rollback(SequenceConflict)
      else
        var target := EventTransition(p.row.status, e.kind);
        if target.None? then Rollback(InvalidTransition)
        else Commit(ApplyEvent(p, e, target.value, now))
  }

  function ApplyEvent(p: Order, e: OrderEvent, target: Status, now: int): Order {
    var q := p.(
      row := p.row.(status := target, sequence := e.sequence,
        cancellation := if e.kind == OrderCancelled then Confirmed else p.row.cancellation),
      jobs := if e.kind == OrderCancelled then CloseCancellations(p.jobs, now) else p.jobs,
      received := p.received + [e]);
    if p.row.status == target then q else q.(history := q.history + [HistoryRow(target, ByVenue)])
  }

  // ---------- what every transaction keeps, whatever the venue does ----------

  ghost predicate JobsMatchStatus(p: Order) {
    && |p.jobs| > 0
    && p.jobs[0].kind.ConfirmOrder?
    && (forall k :: 0 < k < |p.jobs| ==> p.jobs[k].kind.CancelOrder?)
    && (p.jobs[0].Open() <==> p.row.status == Pending)
    && (forall k :: 0 < k < |p.jobs| && p.jobs[k].Open() ==> k == |p.jobs| - 1 && p.row.cancellation == Requested)
    && (p.row.cancellation == Requested ==> |p.jobs| > 1 && p.jobs[|p.jobs| - 1].Open())
  }

  ghost predicate LocksMatchAttempts(p: Order) {
    forall k :: 0 <= k < |p.jobs| ==>
      && (p.jobs[k].token.Some? ==> p.jobs[k].attempts > 0 && p.jobs[k].Open() && p.jobs[k].lockedUntil.Some?)
      && (p.jobs[k].token.None? ==> p.jobs[k].lockedUntil.None?)
  }

  ghost predicate StatusesAgree(p: Order) {
    && (p.row.status == Cancelled <==> p.row.cancellation == Confirmed)
    && (p.row.status in {Pending, Rejected, Expired} ==>
          p.row.cancellation == NotRequested && p.row.sequence == 0 && |p.jobs| == 1)
  }

  ghost predicate EventsNumbered(p: Order) {
    && p.row.sequence == |p.received|
    && (forall k :: 0 <= k < |p.received| ==> p.received[k].sequence == k + 1)
  }

  ghost predicate HistoryEndsAtStatus(p: Order) {
    && |p.history| > 0
    && p.history[0].status == Pending
    && p.history[|p.history| - 1].status == p.row.status
    && (forall k :: 0 <= k < |p.history| - 1 ==> p.history[k].status != p.history[k + 1].status)
  }

  ghost predicate Inv(p: Order) {
    JobsMatchStatus(p) && LocksMatchAttempts(p) && StatusesAgree(p) && EventsNumbered(p) && HistoryEndsAtStatus(p)
  }

  /** Any call the rest of the world can make on an existing order, with any arguments at all. */
  datatype Call =
    | Cancel
    | Take(job: nat, token: Id, lease: int)
    | Decide(job: nat, token: Id, decision: Decision)
    | DecideCancel(job: nat, token: Id, cancelDecision: CancelDecision)
    | Retry(job: nat, token: Id, availableAt: int)
    | Abandon(job: nat, token: Id)
    | Record(venue: Id, event: OrderEvent, elsewhere: bool)

  function Committed(p: Order, t: Tx<Order, Error>): Order {
    if t.Commit? then t.state else p
  }

  /** The platform after one call. Workers dispatch on the job's kind, so a decision only reaches a
      confirmation job and a cancellation decision only reaches a cancellation job. */
  function After(p: Order, call: Call, now: int): Order {
    match call {
      case Cancel => Committed(p, CustomerCancel(p, now))
      case Take(k, token, lease) => if Claimable(p, k, now) then ClaimJob(p, k, token, now, lease) else p
      case Decide(k, token, d) =>
        if k < |p.jobs| && p.jobs[k].kind.ConfirmOrder? then Committed(p, Resolve(p, k, token, d, now)) else p
      case DecideCancel(k, token, d) =>
        if k < |p.jobs| && p.jobs[k].kind.CancelOrder?
        then Committed(p, ResolveCancellation(p, k, token, d, now)) else p
      case Retry(k, token, at) => Committed(p, Reschedule(p, k, token, at))
      case Abandon(k, token) => Committed(p, GiveUp(p, k, token, now))
      case Record(venue, e, elsewhere) => Committed(p, RecordEvent(p, venue, e, elsewhere, now))
    }
  }

  lemma CreateEstablishes(venue: Id, command: OrderCommand, amount: int, currency: Currency, deadline: int, now: int)
    ensures Inv(Create(venue, command, amount, currency, deadline, now))
  {
  }

  lemma OpenConfirmationIsFirst(p: Order)
    requires Inv(p)
    ensures OpenConfirmation(p.jobs) == if p.row.status == Pending then Some(0) else None
  {
  }

  lemma CancelKeepsInv(p: Order, now: int)
    requires Inv(p)
    ensures Inv(After(p, Cancel, now))
  {
  }

  lemma TakeKeepsInv(p: Order, k: nat, token: Id, now: int, lease: int)
    requires Inv(p) && Claimable(p, k, now)
    ensures Inv(ClaimJob(p, k, token, now, lease))
  {
  }

  lemma ResolveKeepsInv(p: Order, k: nat, token: Id, decision: Decision, now: int)
    requires Inv(p) && Owns(p, k, token) && p.jobs[k].kind.ConfirmOrder?
    ensures Inv(Resolve(p, k, token, decision, now).state)
  {
  }

  lemma ResolveCancellationKeepsInv(p: Order, k: nat, token: Id, decision: CancelDecision, now: int)
    requires Inv(p) && Owns(p, k, token) && p.jobs[k].kind.CancelOrder?
    ensures Inv(ResolveCancellation(p, k, token, decision, now).state)
  {
  }

  lemma RescheduleKeepsInv(p: Order, k: nat, token: Id, availableAt: int)
    requires Inv(p) && Owns(p, k, token)
    ensures Inv(Reschedule(p, k, token, availableAt).state)
  {
  }

  lemma GiveUpKeepsInv(p: Order, k: nat, token: Id, now: int)
    requires Inv(p) && Owns(p, k, token)
    ensures Inv(GiveUp(p, k, token, now).state)
  {
  }

  lemma RecordKeepsInv(p: Order, venue: Id, e: OrderEvent, elsewhere: bool, now: int)
    requires Inv(p)
    ensures Inv(Committed(p, RecordEvent(p, venue, e, elsewhere, now)))
  {
    if EventTransition(p.row.status, e.kind).Some? && e.sequence == p.row.sequence + 1 {
      ApplyKeepsInv(p, e, EventTransition(p.row.status, e.kind).value, now);
    }
  }

  lemma ApplyKeepsInv(p: Order, e: OrderEvent, target: Status, now: int)
    requires Inv(p) && EventTransition(p.row.status, e.kind) == Some(target) && e.sequence == p.row.sequence + 1
    ensures Inv(ApplyEvent(p, e, target, now))
  {
    ApplyKeepsJobs(p, e, target, now);
    hide JobsMatchStatus, LocksMatchAttempts;
  }

  lemma ApplyKeepsJobs(p: Order, e: OrderEvent, target: Status, now: int)
    requires Inv(p) && EventTransition(p.row.status, e.kind) == Some(target)
    ensures JobsMatchStatus(ApplyEvent(p, e, target, now)) && LocksMatchAttempts(ApplyEvent(p, e, target, now))
  {
  }

  lemma CallKeepsInv(p: Order, call: Call, now: int)
    requires Inv(p)
    ensures Inv(After(p, call, now))
  {
    match call {
      case Cancel => CancelKeepsInv(p, now);
      case Record(venue, e, elsewhere) => RecordKeepsInv(p, venue, e, elsewhere, now);
      case Take(k, token, lease) =>
        if Claimable(p, k, now) { TakeKeepsInv(p, k, token, now, lease); }
      case Decide(k, token, d) =>
        if Owns(p, k, token) && p.jobs[k].kind.ConfirmOrder? { ResolveKeepsInv(p, k, token, d, now); }
      case DecideCancel(k, token, d) =>
        if Owns(p, k, token) && p.jobs[k].kind.CancelOrder? { ResolveCancellationKeepsInv(p, k, token, d, now); }
      case Retry(k, token, at) =>
        if Owns(p, k, token) { RescheduleKeepsInv(p, k, token, at); }
      case Abandon(k, token) =>
        if Owns(p, k, token) { GiveUpKeepsInv(p, k, token, now); }
    }
  }
}
