/** One step of each worker loop over its repository. The answer of the other service, the readings of the
    clock and the jitter are parameters; what other participants do between the claim and the answer is the
    business of the interleaved model in Protocol. */
module Workers {
  import opened Types
  import W = Worker
  import P = Platform
  import V = Venue
  import PlatformRules
  import Protocol
  import C = Catalog
  import K = Checkout
  import PS = PlatformStore
  import VS = VenueStore
  import VenueRules

  datatype Round = Round(
    token: Id, claimedAt: int, lease: int, checkedAt: int, now: int, jitter: real, maxAttempts: int,
    confirmation: W.Delivery<Decision>, cancellation: W.Delivery<CancelDecision>, acked: bool)

  ghost function WorldOf(r: Round): Protocol.World {
    Protocol.World(V.Shop(map[], 0, false), r.now, 0, r.maxAttempts)
  }

  /** The order after the worker that holds `job` has finished with it. */
  ghost function Finished(p: P.Order, job: P.Claim, r: Round): P.Order {
    if job.kind.CancelOrder?
    then Protocol.FinishedCancellation(p, job, WorldOf(r), r.cancellation, r.jitter)
    else Protocol.FinishedConfirmation(p, job, WorldOf(r), r.checkedAt, r.confirmation, r.jitter)
  }

  method FinishConfirmation(repository: PS.Repository, o: Id, job: P.Claim, r: Round)
    requires repository.Valid() && o in repository.orders && job.kind.ConfirmOrder?
    requires job.job < |repository.outbox[o]| ==> job.kind == repository.outbox[o][job.job].kind
    modifies repository
    ensures repository.Valid()
    ensures repository.Orders() == old(repository.Orders())[o := Finished(old(repository.Load(o)), job, r)]
  {
    hide P.Resolve, P.GiveUp, P.Reschedule, W.Backoff, PS.Join, P.Owns, C.Inv, K.OneOrderPerKey, P.Committed;
    if r.checkedAt >= job.deadline {
      var _ := repository.RetryOutbox(o, job.job, job.kind, job.token, r.now, true, r.now);
      return;
    }
    if r.confirmation.Delivered? {
      var _ := repository.ResolveOutbox(o, job.job, job.token, r.confirmation.decision, r.now);
      return;
    }
    var next := r.now + W.Backoff(job.attempts, W.RETRY_SHIFT, r.jitter);
    var terminal := !r.confirmation.retryable || job.attempts >= r.maxAttempts;
    if next >= job.deadline {
      terminal := true;
    }
    var _ := repository.RetryOutbox(o, job.job, job.kind, job.token, next, terminal, r.now);
  }

  method FinishCancellation(repository: PS.Repository, o: Id, job: P.Claim, r: Round)
    requires repository.Valid() && o in repository.orders && job.kind.CancelOrder?
    requires job.job < |repository.outbox[o]| ==> job.kind == repository.outbox[o][job.job].kind
    modifies repository
    ensures repository.Valid()
    ensures repository.Orders() == old(repository.Orders())[o := Finished(old(repository.Load(o)), job, r)]
  {
    hide P.ResolveCancellation, P.GiveUp, P.Reschedule, W.Backoff, PS.Join, P.Owns, C.Inv, K.OneOrderPerKey;
    if r.cancellation.Delivered? {
      var _ := repository.ResolveCancellation(o, job.job, job.token, r.cancellation.decision, r.now);
      return;
    }
    var next := r.now + W.Backoff(job.attempts, W.RETRY_SHIFT, r.jitter);
    var terminal := !r.cancellation.retryable || job.attempts >= r.maxAttempts;
    var _ := repository.RetryOutbox(o, job.job, job.kind, job.token, next, terminal, r.now);
  }

  /** `processOne`: claim, ask the venue, apply or put back. A lost lease is only logged. */
  method ProcessJob(repository: PS.Repository, r: Round) returns (job: Option<(Id, P.Claim)>)
    requires repository.Valid()
    modifies repository
    ensures repository.Valid()
    ensures job.None? ==>
      && repository.Orders() == old(repository.Orders())
      && forall o, k: nat :: o in old(repository.orders) && k < |old(repository.outbox)[o]| ==>
           !PlatformRules.Due(old(repository.outbox)[o][k], old(repository.orders)[o], r.claimedAt)
    ensures job.Some? ==>
      var (o, claim) := job.value;
      && o in old(repository.orders) && claim.job < |old(repository.outbox)[o]|
      && PlatformRules.Due(old(repository.outbox)[o][claim.job], old(repository.orders)[o], r.claimedAt)
    ensures job.Some? ==>
      var (o, claim) := job.value;
      && o in old(repository.orders) && P.Claimable(old(repository.Load(o)), claim.job, r.claimedAt)
      && claim == P.ClaimOf(old(repository.Load(o)), claim.job, r.token, r.claimedAt, r.lease)
      && repository.Orders() == old(repository.Orders())[o :=
           Finished(P.ClaimJob(old(repository.Load(o)), claim.job, r.token, r.claimedAt, r.lease), claim, r)]
  {
    hide Finished, PS.Join, C.Inv, K.OneOrderPerKey, P.Claimable, P.ClaimJob, P.ClaimOf, PlatformRules.Due;
    job := repository.ClaimOutbox(r.token, r.claimedAt, r.lease);
    if job.Some? {
      var (o, claim) := job.value;
      Loaded(repository, o);
      match claim.kind {
        case CancelOrder => FinishCancellation(repository, o, claim, r);
        case ConfirmOrder(_) => FinishConfirmation(repository, o, claim, r);
      }
    }
  }

  lemma Loaded(repository: PS.Repository, o: Id)
    requires repository.Valid() && (o in repository.orders || o in repository.Orders())
    ensures o in repository.orders && repository.Orders()[o] == repository.Load(o)
  {
  }

  // ---------- callbacks ----------

  method FinishCallback(repository: VS.Repository, o: Id, job: V.CallbackClaim, r: Round)
    requires repository.Valid() && o in repository.orders
    modifies repository
    ensures repository.Valid()
    ensures repository.Orders() == old(repository.Orders())[o :=
      Protocol.FinishedCallback(old(repository.Load(o)), job, WorldOf(r), r.acked, r.jitter)]
  {
    hide W.Backoff, V.OwnsCallback;
    if !r.acked {
      var next := r.now + W.Backoff(job.attempts, W.CALLBACK_SHIFT, r.jitter);
      var _ := repository.RetryCallback(o, job.row, job.token, next);
      return;
    }
    var _ := repository.CompleteCallback(o, job.row, job.token, r.now);
  }

  /** `processOne` of the venue: claim, deliver, mark delivered or put back, without an attempt limit. */
  method ProcessCallback(repository: VS.Repository, r: Round) returns (job: Option<(Id, V.CallbackClaim)>)
    requires repository.Valid()
    modifies repository
    ensures repository.Valid()
    ensures job.None? ==>
      && repository.Orders() == old(repository.Orders())
      && forall o, k: nat :: o in old(repository.orders) && k < |old(repository.outbox)[o]| ==>
           !VenueRules.Due(old(repository.outbox)[o], k, r.claimedAt)
    ensures job.Some? ==>
      var (o, claim) := job.value;
      && o in old(repository.orders) && claim.row < |old(repository.outbox)[o]|
      && VenueRules.Due(old(repository.outbox)[o], claim.row, r.claimedAt)
    ensures job.Some? ==>
      var (o, claim) := job.value;
      && o in old(repository.orders) && V.CallbackClaimable(old(repository.Load(o)), claim.row, r.claimedAt)
      && claim == V.CallbackClaimOf(old(repository.Load(o)), claim.row, r.token, r.claimedAt, r.lease)
      && repository.Orders() == old(repository.Orders())[o := Protocol.FinishedCallback(
           V.ClaimCallback(old(repository.Load(o)), claim.row, r.token, r.claimedAt, r.lease), claim,
                WorldOf(r), r.acked, r.jitter)]
  {
    hide Protocol.FinishedCallback, VenueRules.Due;
    job := repository.ClaimCallback(r.token, r.claimedAt, r.lease);
    if job.Some? {
      var (o, claim) := job.value;
      CallbackLoaded(repository, o);
      FinishCallback(repository, o, claim, r);
    }
  }

  lemma CallbackLoaded(repository: VS.Repository, o: Id)
    requires repository.Valid() && (o in repository.orders || o in repository.Orders())
    ensures o in repository.orders && repository.Orders()[o] == repository.Load(o)
  {
  }
}
