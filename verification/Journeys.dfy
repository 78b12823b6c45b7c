/** What can happen: every order that the venue would accept can be completed on both sides, and can be cancelled. */
module Journeys {
  import opened Types
  import opened Protocol
  import opened Progress
  import opened Agreement
  import P = Platform
  import V = Venue
  import W = Worker

  ghost predicate Reaches(c: Cell, d: Cell) {
    exists steps :: Path(c, steps, d)
  }

  lemma ReachesNext(c: Cell, w: World, a: Action)
    requires Enabled(c, w, a)
    ensures Reaches(c, Step(c, w, a).cell)
  {
    hide Enabled, Step;
    PathEnds(Step(c, w, a).cell);
    PathCons(c, w, a, [], Step(c, w, a).cell);
  }

  lemma ReachesJoin(c: Cell, d: Cell, e: Cell)
    requires Reaches(c, d) && Reaches(d, e)
    ensures Reaches(c, e)
  {
    hide Path;
    var steps :| Path(c, steps, d);
    var more :| Path(d, more, e);
    PathsJoin(c, steps, d, more, e);
  }

  /** Both sides show this status, and the platform has recorded everything that the venue has issued and delivered. */
  ghost predicate InStep(c: Cell, status: Status) {
    && Inv(c) && c.p.row.status == status && c.v.Some? && c.v.value.status == status
    && c.p.received == V.Log(c.v.value)
    && forall k :: 0 <= k < |c.v.value.callbacks| ==> !c.v.value.callbacks[k].Open()
  }

  /** The event ids and tokens used so far; the cancellation is not under way. */
  ghost predicate Below(c: Cell, ids: nat, tokens: nat) {
    && c.v.Some? && c.p.row.cancellation != P.Requested
    && (forall k :: 0 <= k < |c.v.value.callbacks| ==> c.v.value.callbacks[k].event.id < ids)
    && (forall cb :: cb in c.net.callbackClaims ==> cb.token < tokens)
  }

  /** Only the newest callback is undelivered, and it fits what the platform shows. */
  ghost predicate LastIsWaiting(c: Cell, now: int)
    requires c.v.Some? && |c.v.value.callbacks| > 0
  {
    var v, k := c.v.value, |c.v.value.callbacks| - 1;
    var e := v.callbacks[k].event;
    && V.CallbackClaimable(v, k, now) && (forall j :: 0 <= j < k ==> !v.callbacks[j].Open())
    && c.p.received == V.Log(v)[..k] && c.p.row.sequence == k && e.sequence == k + 1
    && (forall i :: 0 <= i < k ==> v.callbacks[i].event.id != e.id)
    && P.EventTransition(c.p.row.status, e.kind) == Some(v.status)
  }

  /** One callback on its way: claimed, sent, recorded and acknowledged. */
  lemma CallbackArrives(c: Cell, w: World, ids: nat, token: Id) returns (d: Cell)
    requires Inv(c) && c.v.Some? && |c.v.value.callbacks| > 0 && w.venue == c.p.row.venue
    requires LastIsWaiting(c, w.now) && Below(c, ids, token)
    ensures Reaches(c, d) && InStep(d, c.v.value.status) && Below(d, ids, token + 1)
    ensures d.p.row.venue == c.p.row.venue
  {
    hide Inv, V.Serve, V.Cancel, V.Transition, P.CustomerCancel, FinishedConfirmation, FinishedCancellation, Reaches;
    var cb, c2 := CallbackTaken(c, w, ids, token);
    d := CallbackRecorded(c2, w, cb, ids, token);
    hide LastIsWaiting, InStep, Below;
    ReachesJoin(c, c2, d);
  }

  /** Claimed and sent. */
  lemma CallbackTaken(c: Cell, w: World, ids: nat, token: Id) returns (cb: V.CallbackClaim, d: Cell)
    requires Inv(c) && c.v.Some? && |c.v.value.callbacks| > 0
    requires LastIsWaiting(c, w.now) && Below(c, ids, token)
    ensures Reaches(c, d) && Inv(d) && d.p == c.p && d.v.Some? && d.v.value.status == c.v.value.status
    ensures Carried(d, cb, ids, token)
  {
    hide Inv, V.Serve, V.Cancel, V.Transition, P.CustomerCancel, P.RecordEvent, FinishedCallback, Reaches;
    hide FinishedConfirmation, FinishedCancellation;
    var v, k := c.v.value, |c.v.value.callbacks| - 1;
    cb := V.CallbackClaimOf(v, k, token, w.now, 10);
    var take := TakeCallback(k, token, 10);
    var c1 := Step(c, w, take).cell;
    d := Step(c1, w, SendCallback(cb)).cell;
    StepKeepsInv(c, w, take);
    StepKeepsInv(c1, w, SendCallback(cb));
    ReachesNext(c, w, take);
    ReachesNext(c1, w, SendCallback(cb));
    assert V.Log(d.v.value) == V.Log(v);
    hide Step, Enabled;
    ReachesJoin(c, c1, d);
  }

  /** The newest callback is sent and leased, all others are delivered and recorded. */
  ghost predicate Carried(c: Cell, cb: V.CallbackClaim, ids: nat, token: Id) {
    && c.v.Some? && |c.v.value.callbacks| > 0 && c.p.row.cancellation != P.Requested
    && var v, k := c.v.value, |c.v.value.callbacks| - 1;
       && cb in c.net.callbackClaims && cb in c.net.callbacksSent && cb.row == k && cb.event == v.callbacks[k].event
       && V.OwnsCallback(v, k, cb.token) && (forall j :: 0 <= j < k ==> !v.callbacks[j].Open())
       && c.p.received == V.Log(v)[..k] && c.p.row.sequence == k && cb.event.sequence == k + 1
       && (forall i :: 0 <= i < k ==> v.callbacks[i].event.id != cb.event.id)
       && P.EventTransition(c.p.row.status, cb.event.kind) == Some(v.status)
       && (forall i :: 0 <= i <= k ==> v.callbacks[i].event.id < ids)
       && (forall x :: x in c.net.callbackClaims ==> x.token < token + 1)
  }

  /** Recorded and acknowledged. */
  lemma CallbackRecorded(c: Cell, w: World, cb: V.CallbackClaim, ids: nat, token: Id) returns (d: Cell)
    requires Inv(c) && Carried(c, cb, ids, token) && w.venue == c.p.row.venue
    ensures Reaches(c, d) && InStep(d, c.v.value.status) && Below(d, ids, token + 1)
    ensures d.p.row.venue == c.p.row.venue
  {
    hide Inv, V.Serve, V.Cancel, V.Transition, P.CustomerCancel, FinishedConfirmation, FinishedCancellation, Reaches;
    var v, k := c.v.value, |c.v.value.callbacks| - 1;
    assert V.Log(v) == V.Log(v)[..k] + [v.callbacks[k].event];
    assert forall i :: 0 <= i < k ==> c.p.received[i] == v.callbacks[i].event;
    var record, finish := PlatformRecords(cb, false), FinishCallback(cb, true, 0.0);
    var c1 := Step(c, w, record).cell;
    d := Step(c1, w, finish).cell;
    StepKeepsInv(c, w, record);
    StepKeepsInv(c1, w, finish);
    ReachesNext(c, w, record);
    ReachesNext(c1, w, finish);
    assert V.Log(d.v.value) == V.Log(v);
    hide Step, Enabled;
    ReachesJoin(c, c1, d);
  }

  /** Staff moves the order on, and the platform follows. */
  lemma MoveArrives(c: Cell, w: World, move: V.Move, id: Id, token: Id) returns (d: Cell)
    requires InStep(c, move.Expected()) && w.venue == c.p.row.venue && Below(c, id, token)
    ensures Reaches(c, d) && InStep(d, move.Target()) && Below(d, id + 1, token + 1)
    ensures d.p.row.venue == c.p.row.venue
  {
    hide V.Serve, V.Cancel, P.CustomerCancel, P.RecordEvent, FinishedConfirmation, FinishedCancellation, Reaches;
    MoveWaits(c, w, move, id, token);
    hide Inv, LastIsWaiting, InStep, Below;
    var moved := Step(c, w, StaffMoves(move, id)).cell;
    StepKeepsInv(c, w, StaffMoves(move, id));
    ReachesNext(c, w, StaffMoves(move, id));
    d := CallbackArrives(moved, w, id + 1, token);
    ReachesJoin(c, moved, d);
  }

  lemma MoveWaits(c: Cell, w: World, move: V.Move, id: Id, token: Id)
    requires InStep(c, move.Expected()) && Below(c, id, token)
    ensures Enabled(c, w, StaffMoves(move, id))
    ensures var d := Step(c, w, StaffMoves(move, id)).cell;
      && d.net == c.net && d.p == c.p && d.v.Some? && d.v.value.status == move.Target()
      && |d.v.value.callbacks| == |c.v.value.callbacks| + 1 && LastIsWaiting(d, w.now)
      && Below(d, id + 1, token)
  {
    hide V.Serve, V.Cancel, P.CustomerCancel, P.RecordEvent, FinishedConfirmation, FinishedCancellation;
    hide ClaimsAreGenuine, CallbacksAreGenuine, StatusIsJustified;
    var d := Step(c, w, StaffMoves(move, id)).cell;
    var n := |c.v.value.callbacks|;
    assert V.Log(d.v.value)[..n] == V.Log(c.v.value);
  }

  /** The world accepts this command and charges what the platform has stored. */
  ghost predicate Welcomes(w: World, command: OrderCommand, amount: int, currency: Currency) {
    && V.ValidCommand(command) && w.shop.accepting && command.menuVersion == w.shop.version
    && V.Judge(w.shop.menu, command.lines) == V.Served(amount, currency)
  }

  lemma VenueStays(venue: Id, command: OrderCommand, amount: int, currency: Currency, deadline: int, now: int,
                   steps: seq<(World, Action)>, c: Cell)
    requires Path(Cell(P.Create(venue, command, amount, currency, deadline, now), None, NO_NET), steps, c)
    ensures c.p.row.venue == venue
  {
    Protocol.CreateEstablishes(venue, command, amount, currency, deadline, now);
    hide Inv, Path;
    PathIsLater(Cell(P.Create(venue, command, amount, currency, deadline, now), None, NO_NET), steps, c);
  }

  lemma FinishAccepts(c: Cell, cl: P.Claim, w: World, command: OrderCommand)
    requires Unanswered(c, cl, w, command) && c.v.value.decision.Accept? && w.now < cl.deadline
    requires (cl, c.v.value.decision) in c.net.decisions && c.p.received == []
    requires c.v.value.decision.amount == cl.amount && c.v.value.decision.currency == cl.currency
    ensures var finish := FinishConfirmation(cl, w.now, W.Delivered(c.v.value.decision), 0.0);
      && Enabled(c, w, finish)
      && var d := Step(c, w, finish).cell;
         && InStep(d, Accepted) && d.net == c.net && d.v == c.v && |d.p.jobs| == 1
         && d.p.row.venue == c.p.row.venue && d.p.row.cancellation == c.p.row.cancellation
  {
    hide Inv;
    var finish := FinishConfirmation(cl, w.now, W.Delivered(c.v.value.decision), 0.0);
    assert Unanswered(c, cl, w, command);
    ClaimIsKnown(c, cl);
    StepKeepsInv(c, w, finish);
  }

  lemma ClaimIsKnown(c: Cell, cl: P.Claim)
    requires Inv(c) && cl in c.net.claims
    ensures cl.job < |c.p.jobs| && cl.deadline == c.p.row.deadline
  {
  }

  /** The order is confirmed and the acceptance arrives. */
  lemma AcceptanceArrives(venue: Id, command: OrderCommand, amount: int, currency: Currency, deadline: int,
                          w: World, token: Id, newId: Id) returns (d: Cell)
    requires Welcomes(w, command, amount, currency) && w.now < deadline
    ensures Reaches(Cell(P.Create(venue, command, amount, currency, deadline, w.now), None, NO_NET), d)
    ensures InStep(d, Accepted) && d.p.row.venue == venue && Below(d, 0, 0)
    ensures d.p.row.cancellation == P.NotRequested && |d.p.jobs| == 1
    ensures forall cl :: cl in d.net.claims ==> cl.token == token
    ensures forall cl :: cl in d.net.claims ==> cl.token == token
  {
    hide V.Judge, V.ValidCommand, P.Create;
    var cl, c, steps := ReplyIsLost(venue, command, amount, currency, deadline, w, token, newId);
    var finish := FinishConfirmation(cl, w.now, W.Delivered(c.v.value.decision), 0.0);
    VenueStays(venue, command, amount, currency, deadline, w.now, steps, c);
    FinishAccepts(c, cl, w, command);
    hide Inv, InStep, Path, Step, Enabled;
    d := Step(c, w, finish).cell;
    ReachesNext(c, w, finish);
    ReachesJoin(Cell(P.Create(venue, command, amount, currency, deadline, w.now), None, NO_NET), c, d);
  }

  lemma ReachesThrough(c: Cell, d: Cell, e: Cell, f: Cell, g: Cell)
    requires Reaches(c, d) && Reaches(d, e) && Reaches(e, f) && Reaches(f, g)
    ensures Reaches(c, g)
  {
    hide Reaches;
    ReachesJoin(c, d, e);
    ReachesJoin(c, e, f);
    ReachesJoin(c, f, g);
  }

  /** Any order that the venue would accept can be prepared, made ready and completed, and at the end both sides show
      it completed and nothing is under way. */
  lemma OrderCanBeCompleted(venue: Id, command: OrderCommand, amount: int, currency: Currency, deadline: int,
                            w: World, token: Id, newId: Id) returns (d: Cell)
    requires Welcomes(w, command, amount, currency) && w.now < deadline && w.venue == venue
    ensures Reaches(Cell(P.Create(venue, command, amount, currency, deadline, w.now), None, NO_NET), d)
    ensures Inv(d) && Quiescent(d)
    ensures d.p.row.status == Completed && d.v.Some? && d.v.value.status == Completed
  {
    hide Welcomes, P.Create, Reaches, Inv, InStep, Below, Quiescent, Agrees;
    var start := Cell(P.Create(venue, command, amount, currency, deadline, w.now), None, NO_NET);
    var c := AcceptanceArrives(venue, command, amount, currency, deadline, w, token, newId);
    var c1 := MoveArrives(c, w, V.StartPreparing, 0, 0);
    var c2 := MoveArrives(c1, w, V.MarkReady, 1, 1);
    d := MoveArrives(c2, w, V.Complete, 2, 2);
    ReachesThrough(start, c, c1, c2, d);
    InStepAgrees(d, Completed, 3, 3);
  }

  lemma InStepAgrees(c: Cell, status: Status, ids: nat, tokens: nat)
    requires InStep(c, status) && Below(c, ids, tokens) && status != Pending
    ensures Inv(c) && Quiescent(c) && c.p.row.status == status && c.v.Some? && c.v.value.status == status
  {
    hide ClaimsAreGenuine, CallbacksAreGenuine, StatusIsJustified, VenueAnswered, ReceivedIsPrefix;
  }

  /** The customer cancels and a worker takes the job. */
  lemma CancellationQueued(c: Cell, w: World, token: Id) returns (cl: P.Claim, d: Cell)
    requires InStep(c, Accepted) && Below(c, 0, 0) && c.p.row.cancellation == P.NotRequested && |c.p.jobs| == 1
    requires FreshToken(c.net, token)
    ensures Reaches(c, d) && Inv(d) && d.v == c.v && cl in d.net.claims && d.net.callbackClaims == c.net.callbackClaims
    ensures d.p.row == c.p.row.(cancellation := P.Requested) && d.p.received == c.p.received
    ensures cl.kind.CancelOrder? && cl.job == 1 && P.Owns(d.p, 1, cl.token)
  {
    hide Reaches, V.Serve, V.Cancel, V.Transition, V.ClaimCallback, P.RecordEvent, FinishedCallback;
    hide FinishedConfirmation, FinishedCancellation;
    var c1 := Step(c, w, CustomerCancels).cell;
    var take := TakeJob(1, token, 10);
    cl := P.ClaimOf(c1.p, 1, token, w.now, 10);
    d := Step(c1, w, take).cell;
    hide Inv;
    StepKeepsInv(c, w, CustomerCancels);
    StepKeepsInv(c1, w, take);
    ReachesNext(c, w, CustomerCancels);
    ReachesNext(c1, w, take);
    ReachesJoin(c, c1, d);
  }

  /** The venue confirms and the worker applies the answer. */
  lemma CancellationAnswered(c: Cell, w: World, cl: P.Claim) returns (d: Cell)
    requires Inv(c) && cl in c.net.claims && cl.kind.CancelOrder? && cl.job == 1 && P.Owns(c.p, 1, cl.token)
    requires c.p.row.cancellation == P.Requested && c.p.received == []
    requires c.v.Some? && c.v.value.status == Accepted && c.v.value.callbacks == []
    ensures Reaches(c, d) && Inv(d) && d.p.row == c.p.row.(status := Cancelled, cancellation := P.Confirmed)
    ensures d.v.Some? && d.v.value.status == Cancelled && |d.v.value.callbacks| == 1 && d.p.received == []
    ensures d.v.value.callbacks[0] == V.NewCallback(OrderEvent(0, c.v.value.nextSequence, OrderCancelled), w.now)
    ensures d.net.callbackClaims == c.net.callbackClaims
  {
    assert c.v.value.cancelDecision.None?;
    hide Inv, Reaches, V.Serve, V.Release, V.Transition, V.ClaimCallback, P.RecordEvent, FinishedCallback;
    hide FinishedConfirmation, P.CustomerCancel;
    var send, cancel := SendRequest(cl, w.now), VenueCancels(cl, 0);
    var finish := FinishCancellation(cl, W.Delivered(CancelConfirmed), 0.0);
    var c1 := Step(c, w, send).cell;
    var c2 := Step(c1, w, cancel).cell;
    d := Step(c2, w, finish).cell;
    StepKeepsInv(c, w, send);
    StepKeepsInv(c1, w, cancel);
    StepKeepsInv(c2, w, finish);
    ReachesNext(c, w, send);
    ReachesNext(c1, w, cancel);
    ReachesNext(c2, w, finish);
    hide Step, Enabled;
    ReachesJoin(c, c1, c2);
    ReachesJoin(c, c2, d);
  }

  lemma CancelledWaits(d: Cell, now: int)
    requires Inv(d) && d.p.row.status == Cancelled && d.p.row.cancellation == P.Confirmed && d.p.received == []
    requires d.v.Some? && d.v.value.status == Cancelled && |d.v.value.callbacks| == 1
    requires exists sequence ::
      d.v.value.callbacks[0] == V.NewCallback(OrderEvent(0, sequence, OrderCancelled), now)
    requires d.net.callbackClaims == {}
    ensures LastIsWaiting(d, now) && Below(d, 1, 0)
  {
    hide ClaimsAreGenuine, CallbacksAreGenuine, StatusIsJustified;
    assert V.Log(d.v.value)[..0] == [];
  }

  /** Any order that the venue would accept can be cancelled by its customer after the acceptance, and at the end both
      sides show it cancelled and nothing is under way. */
  lemma OrderCanBeCancelled(venue: Id, command: OrderCommand, amount: int, currency: Currency, deadline: int,
                            w: World, token: Id, newId: Id) returns (d: Cell)
    requires Welcomes(w, command, amount, currency) && w.now < deadline && w.venue == venue
    ensures Reaches(Cell(P.Create(venue, command, amount, currency, deadline, w.now), None, NO_NET), d)
    ensures Inv(d) && Quiescent(d)
    ensures d.p.row.status == Cancelled && d.v.Some? && d.v.value.status == Cancelled
  {
    hide Welcomes, P.Create, Reaches, Inv, Quiescent, LastIsWaiting;
    var start := Cell(P.Create(venue, command, amount, currency, deadline, w.now), None, NO_NET);
    var c := AcceptanceArrives(venue, command, amount, currency, deadline, w, token, newId);
    var cl, c1 := CancellationQueued(c, w, token + 1);
    NothingIssued(c);
    hide InStep;
    var c2 := CancellationAnswered(c1, w, cl);
    CancelledWaits(c2, w.now);
    d := CallbackArrives(c2, w, 1, 0);
    ReachesThrough(start, c, c1, c2, d);
    InStepAgrees(d, Cancelled, 1, 1);
  }

  lemma NothingIssued(c: Cell)
    requires InStep(c, Accepted) && Below(c, 0, 0)
    ensures c.v.value.callbacks == [] && c.p.received == [] && c.net.callbackClaims == {}
    ensures c.v.value.status == Accepted
    ensures Inv(c)
  {
    assert forall k :: 0 <= k < |c.v.value.callbacks| ==> c.v.value.callbacks[k].event.id < 0;
    forall cb ensures cb !in c.net.callbackClaims {
    }
  }
}
