/** Leases and fencing tokens over whole runs of one order. */
module Fencing {
  import opened Types
  import opened Protocol
  import opened Progress
  import P = Platform
  import V = Venue
  import W = Worker

  /** The worker holding `cl` is the current owner of its job. */
  ghost predicate Holds(c: Cell, cl: P.Claim) {
    cl in c.net.claims && P.Owns(c.p, cl.job, cl.token) && c.p.jobs[cl.job].lockedUntil == Some(cl.until)
  }

  /** The lease was taken over, released or its job finished. */
  ghost predicate Superseded(c: Cell, cl: P.Claim) {
    cl in c.net.claims && !P.Owns(c.p, cl.job, cl.token)
  }

  predicate Finishes(a: Action, cl: P.Claim) {
    match a {
      case FinishConfirmation(claim, _, _, _) => claim == cl
      case FinishCancellation(claim, _, _) => claim == cl
      case _ => false
    }
  }

  lemma TakeGrantsLease(c: Cell, w: World, a: Action)
    requires Inv(c) && a.TakeJob? && Enabled(c, w, a)
    ensures Holds(Step(c, w, a).cell, P.ClaimOf(c.p, a.job, a.token, w.now, a.lease))
  {
  }

  /** A takeover supersedes every earlier claim on the job. */
  lemma TakeoverSupersedes(c: Cell, w: World, a: Action, cl: P.Claim)
    requires a.TakeJob? && Enabled(c, w, a) && cl in c.net.claims && cl.job == a.job
    ensures Superseded(Step(c, w, a).cell, cl)
  {
  }

  lemma OneOwner(c: Cell, x: P.Claim, y: P.Claim)
    requires Inv(c) && Holds(c, x) && Holds(c, y) && x.job == y.job
    ensures x == y
  {
  }

  /** An unexpired lease keeps everybody else off the job. */
  lemma LeaseExcludes(c: Cell, w: World, cl: P.Claim)
    requires Holds(c, cl) && w.now <= cl.until
    ensures !P.Claimable(c.p, cl.job, w.now)
  {
  }

  /** However a worker with a superseded token ends its round, nothing changes. */
  lemma SupersededChangesNothing(c: Cell, w: World, a: Action, cl: P.Claim)
    requires Superseded(c, cl) && Enabled(c, w, a) && Finishes(a, cl)
    ensures Step(c, w, a) == Next(c, w.shop)
  {
  }

  /** A superseded token can neither resolve, nor reschedule, nor give up. */
  lemma SupersededIsRefused(c: Cell, cl: P.Claim)
    requires Superseded(c, cl)
    ensures forall d, now :: P.Resolve(c.p, cl.job, cl.token, d, now) == Rollback(P.LeaseLost)
    ensures forall d, now :: P.ResolveCancellation(c.p, cl.job, cl.token, d, now) == Rollback(P.LeaseLost)
    ensures forall at :: P.Reschedule(c.p, cl.job, cl.token, at) == Rollback(P.LeaseLost)
    ensures forall now :: P.GiveUp(c.p, cl.job, cl.token, now) == Rollback(P.LeaseLost)
  {
  }

  // The platform functions never put a token back: only a claim writes one, and claims are fresh.

  ghost predicate TokensFrom(p: P.Order, q: P.Order) {
    |p.jobs| <= |q.jobs|
    && forall k :: 0 <= k < |p.jobs| ==>
         && (q.jobs[k].token == p.jobs[k].token || q.jobs[k].token.None?)
         && (!p.jobs[k].Open() ==> !q.jobs[k].Open())
  }

  lemma ConfirmationTokens(c: Cell, w: World, cl: P.Claim, checkedAt: int, delivery: W.Delivery<Decision>, jitter: real)
    ensures TokensFrom(c.p, FinishedConfirmation(c.p, cl, w, checkedAt, delivery, jitter))
  {
  }

  lemma CancellationTokens(c: Cell, w: World, cl: P.Claim, delivery: W.Delivery<CancelDecision>, jitter: real)
    ensures TokensFrom(c.p, FinishedCancellation(c.p, cl, w, delivery, jitter))
  {
  }

  lemma OtherTokens(c: Cell, now: int, venue: Id, e: OrderEvent, elsewhere: bool)
    ensures TokensFrom(c.p, P.Committed(c.p, P.CustomerCancel(c.p, now)))
    ensures TokensFrom(c.p, P.Committed(c.p, P.RecordEvent(c.p, venue, e, elsewhere, now)))
  {
  }

  lemma TakeoverTokens(p: P.Order, k: nat, token: Id, now: int, lease: int, cl: P.Claim)
    requires k < |p.jobs| && cl.job < |p.jobs| && !P.Owns(p, cl.job, cl.token) && token != cl.token
    ensures !P.Owns(P.ClaimJob(p, k, token, now, lease), cl.job, cl.token)
  {
  }

  lemma ClaimHasJob(c: Cell, cl: P.Claim)
    requires Inv(c) && cl in c.net.claims
    ensures cl.job < |c.p.jobs| && cl.kind == c.p.jobs[cl.job].kind
  {
  }

  lemma SupersededStays(c: Cell, w: World, a: Action, cl: P.Claim)
    requires Inv(c) && Enabled(c, w, a) && Superseded(c, cl)
    ensures Superseded(Step(c, w, a).cell, cl)
  {
    hide Inv, FinishedConfirmation, FinishedCancellation, P.CustomerCancel, P.RecordEvent;
    hide V.Serve, V.Cancel, V.Transition, V.ClaimCallback, FinishedCallback, P.ClaimJob, P.ClaimOf;
    ClaimHasJob(c, cl);
    match a {
      case FinishConfirmation(x, checkedAt, delivery, jitter) =>
        ConfirmationTokens(c, w, x, checkedAt, delivery, jitter);
      case FinishCancellation(x, delivery, jitter) => CancellationTokens(c, w, x, delivery, jitter);
      case CustomerCancels => OtherTokens(c, w.now, w.venue, OrderEvent(0, 0, OrderReady), false);
      case PlatformRecords(cb, elsewhere) => OtherTokens(c, w.now, w.venue, cb.event, elsewhere);
      case TakeJob(k, token, lease) => TakeoverTokens(c.p, k, token, w.now, lease, cl);
      case _ =>
    }
  }

  /** Over a whole run: once superseded, always refused. */
  lemma {:induction false} SupersededForEver(c: Cell, steps: seq<(World, Action)>, d: Cell, cl: P.Claim)
    requires Inv(c) && Superseded(c, cl) && Path(c, steps, d)
    ensures Inv(d) && Superseded(d, cl)
    ensures forall decision, now :: P.Resolve(d.p, cl.job, cl.token, decision, now) == Rollback(P.LeaseLost)
    ensures forall decision, now :: P.ResolveCancellation(d.p, cl.job, cl.token, decision, now) == Rollback(P.LeaseLost)
    ensures forall at :: P.Reschedule(d.p, cl.job, cl.token, at) == Rollback(P.LeaseLost)
    ensures forall now :: P.GiveUp(d.p, cl.job, cl.token, now) == Rollback(P.LeaseLost)
    ensures forall w, a :: Enabled(d, w, a) && Finishes(a, cl) ==> Step(d, w, a) == Next(d, w.shop)
    decreases |steps|
  {
    hide Inv, Superseded, Step, Enabled, Finishes;
    if steps == [] {
      SupersededIsRefused(d, cl);
      forall w, a | Enabled(d, w, a) && Finishes(a, cl) ensures Step(d, w, a) == Next(d, w.shop) {
        SupersededChangesNothing(d, w, a, cl);
      }
    } else {
      StepKeepsInv(c, steps[0].0, steps[0].1);
      SupersededStays(c, steps[0].0, steps[0].1, cl);
      SupersededForEver(Step(c, steps[0].0, steps[0].1).cell, steps[1..], d, cl);
    }
  }

  lemma OthersFinishingKeepsLease(c: Cell, w: World, a: Action, cl: P.Claim)
    requires Inv(c) && Enabled(c, w, a) && Holds(c, cl) && !Finishes(a, cl)
    requires a.FinishConfirmation? || a.FinishCancellation?
    ensures Holds(Step(c, w, a).cell, cl)
  {
    hide StatusIsJustified, ReceivedIsPrefix, CallbacksAreGenuine, VenueAnswered;
    hide W.PlanConfirmation, W.PlanCancellation;
    assert a.claim in c.net.claims && a.claim != cl;
    assert a.claim.token != cl.token;
  }

  lemma CustomerKeepsLease(c: Cell, now: int, cl: P.Claim)
    requires Inv(c) && Holds(c, cl)
    ensures Holds(c.(p := P.Committed(c.p, P.CustomerCancel(c.p, now))), cl)
  {
    P.OpenConfirmationIsFirst(c.p);
  }

  lemma RecordKeepsLease(c: Cell, w: World, e: OrderEvent, elsewhere: bool, cl: P.Claim)
    requires Inv(c) && Holds(c, cl)
    ensures var d := c.(p := P.Committed(c.p, P.RecordEvent(c.p, w.venue, e, elsewhere, w.now)));
      Holds(d, cl) || (cl.kind.CancelOrder? && d.p.row.cancellation == P.Confirmed)
  {
    assert cl in c.net.claims;
    hide P.Inv, VenueAnswered, CallbacksAreGenuine, ReceivedIsPrefix, StatusIsJustified;
  }

  lemma OthersClaimingKeepsLease(c: Cell, w: World, a: Action, cl: P.Claim)
    requires Enabled(c, w, a) && Holds(c, cl) && a.TakeJob? && !P.Claimable(c.p, cl.job, w.now)
    ensures Holds(Step(c, w, a).cell, cl)
  {
  }

  /** The only step that ends somebody else's unexpired lease is the venue's own cancellation event. */
  lemma LeaseSurvivesStep(c: Cell, w: World, a: Action, cl: P.Claim)
    requires Inv(c) && Enabled(c, w, a) && Holds(c, cl) && w.now <= cl.until && !Finishes(a, cl)
    ensures var d := Step(c, w, a).cell;
      Holds(d, cl) || (cl.kind.CancelOrder? && d.p.row.cancellation == P.Confirmed)
  {
    hide Inv, P.Inv, V.Serve, V.Cancel, V.Transition, V.ClaimCallback, V.CallbackClaimOf, FinishedCallback;
    LeaseExcludes(c, w, cl);
    if a.FinishConfirmation? || a.FinishCancellation? {
      OthersFinishingKeepsLease(c, w, a, cl);
    } else if a.CustomerCancels? {
      CustomerKeepsLease(c, w.now, cl);
    } else if a.TakeJob? {
      OthersClaimingKeepsLease(c, w, a, cl);
    } else if a.PlatformRecords? {
      RecordKeepsLease(c, w, a.callback.event, a.elsewhere, cl);
    }
  }

  lemma ConfirmedIsCancelled(c: Cell)
    requires Inv(c)
    ensures c.p.row.cancellation == P.Confirmed <==> c.p.row.status == Cancelled
  {
  }

  /** While a confirmation is held its order is pending, so the decision becomes its status. */
  lemma HolderDecides(c: Cell, cl: P.Claim)
    requires Inv(c) && Holds(c, cl) && cl.kind.ConfirmOrder?
    ensures forall decision, now ::
      var resolved := P.Resolve(c.p, cl.job, cl.token, decision, now);
      resolved.Commit? && resolved.state.row.status == if decision.Accept? then Accepted else Rejected
  {
    hide VenueAnswered, CallbacksAreGenuine, ReceivedIsPrefix, StatusIsJustified;
    assert cl in c.net.claims;
  }

  /** Nobody but its owner ends an unexpired lease, so a decision that returns in time is applied. A
      cancellation may only be overtaken by the callback that confirms it. */
  lemma {:induction false} LeaseIsHonoured(c: Cell, steps: seq<(World, Action)>, d: Cell, cl: P.Claim)
    requires Inv(c) && Holds(c, cl) && Path(c, steps, d)
    requires forall s :: s in steps ==> s.0.now <= cl.until && !Finishes(s.1, cl)
    ensures Holds(d, cl) || (cl.kind.CancelOrder? && d.p.row.cancellation == P.Confirmed)
    ensures cl.kind.ConfirmOrder? ==> forall decision, now ::
      var resolved := P.Resolve(d.p, cl.job, cl.token, decision, now);
      resolved.Commit? && resolved.state.row.status == if decision.Accept? then Accepted else Rejected
    decreases |steps|
  {
    hide Inv, Holds, Step, Enabled, Finishes, P.Resolve;
    if steps == [] {
      if cl.kind.ConfirmOrder? {
        HolderDecides(c, cl);
      }
    } else {
      var w, a := steps[0].0, steps[0].1;
      var next := Step(c, w, a).cell;
      assert steps[0] in steps;
      StepKeepsInv(c, w, a);
      LeaseSurvivesStep(c, w, a, cl);
      if Holds(next, cl) {
        LeaseIsHonoured(next, steps[1..], d, cl);
      } else {
        PathIsLater(next, steps[1..], d);
        ConfirmedIsCancelled(next);
        TerminalIsFinal(next, d);
        ConfirmedIsCancelled(d);
      }
    }
  }

  /** A worker that claims a confirmation and comes back with a decision inside its lease has it applied. */
  lemma ClaimIsHonoured(c: Cell, w: World, take: Action, steps: seq<(World, Action)>, d: Cell)
    requires Inv(c) && take.TakeJob? && Enabled(c, w, take) && Path(Step(c, w, take).cell, steps, d)
    requires var cl := P.ClaimOf(c.p, take.job, take.token, w.now, take.lease);
      forall s :: s in steps ==> s.0.now <= cl.until && !Finishes(s.1, cl)
    ensures var cl := P.ClaimOf(c.p, take.job, take.token, w.now, take.lease);
      && (Holds(d, cl) || (cl.kind.CancelOrder? && d.p.row.cancellation == P.Confirmed))
      && (cl.kind.ConfirmOrder? ==> forall decision, now ::
            var resolved := P.Resolve(d.p, cl.job, cl.token, decision, now);
            resolved.Commit? && resolved.state.row.status == if decision.Accept? then Accepted else Rejected)
  {
    StepKeepsInv(c, w, take);
    TakeGrantsLease(c, w, take);
    hide Inv, Holds, Step, Finishes, P.Resolve;
    LeaseIsHonoured(Step(c, w, take).cell, steps, d, P.ClaimOf(c.p, take.job, take.token, w.now, take.lease));
  }
}
