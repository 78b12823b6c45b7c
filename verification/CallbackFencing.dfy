/** Leases and fencing tokens of the venue's callbacks, over whole runs of one order. */
module CallbackFencing {
  import opened Types
  import opened Protocol
  import opened Progress
  import P = Platform
  import V = Venue

  /** The worker holding `cb` is the current owner of its row. */
  ghost predicate Holds(c: Cell, cb: V.CallbackClaim) {
    && c.v.Some? && cb in c.net.callbackClaims && V.OwnsCallback(c.v.value, cb.row, cb.token)
    && c.v.value.callbacks[cb.row].lockedUntil == Some(cb.until)
  }

  /** The lease was taken over, released or its callback delivered. */
  ghost predicate Superseded(c: Cell, cb: V.CallbackClaim) {
    && c.v.Some? && cb in c.net.callbackClaims && cb.row < |c.v.value.callbacks|
    && !V.OwnsCallback(c.v.value, cb.row, cb.token)
  }

  predicate Finishes(a: Action, cb: V.CallbackClaim) {
    a.FinishCallback? && a.callback == cb
  }

  /** No two claims carry one token. */
  ghost predicate TokensUnique(c: Cell) {
    forall x, y :: x in c.net.callbackClaims && y in c.net.callbackClaims && x.token == y.token ==> x == y
  }

  lemma StepKeepsTokens(c: Cell, w: World, a: Action)
    requires TokensUnique(c) && Enabled(c, w, a)
    ensures TokensUnique(Step(c, w, a).cell)
  {
    hide V.Serve, V.Cancel, V.Transition, P.CustomerCancel, P.RecordEvent, P.ClaimJob;
    hide FinishedConfirmation, FinishedCancellation, FinishedCallback;
  }

  lemma {:induction false} PathKeepsTokens(c: Cell, steps: seq<(World, Action)>, d: Cell)
    requires TokensUnique(c) && Path(c, steps, d)
    ensures TokensUnique(d)
    decreases |steps|
  {
    hide TokensUnique, Step, Enabled;
    if steps != [] {
      StepKeepsTokens(c, steps[0].0, steps[0].1);
      PathKeepsTokens(Step(c, steps[0].0, steps[0].1).cell, steps[1..], d);
    }
  }

  lemma TakeGrantsLease(c: Cell, w: World, a: Action)
    requires a.TakeCallback? && Enabled(c, w, a)
    ensures Holds(Step(c, w, a).cell, V.CallbackClaimOf(c.v.value, a.row, a.token, w.now, a.lease))
  {
  }

  /** A takeover supersedes every earlier claim on the row. */
  lemma TakeoverSupersedes(c: Cell, w: World, a: Action, cb: V.CallbackClaim)
    requires a.TakeCallback? && Enabled(c, w, a) && cb in c.net.callbackClaims && cb.row == a.row
    ensures Superseded(Step(c, w, a).cell, cb)
  {
  }

  lemma OneOwner(c: Cell, x: V.CallbackClaim, y: V.CallbackClaim)
    requires TokensUnique(c) && Holds(c, x) && Holds(c, y) && x.row == y.row
    ensures x == y
  {
  }

  /** However a worker with a superseded token ends its round, nothing changes. */
  lemma SupersededChangesNothing(c: Cell, w: World, a: Action, cb: V.CallbackClaim)
    requires Superseded(c, cb) && Enabled(c, w, a) && Finishes(a, cb)
    ensures Step(c, w, a) == Next(c, w.shop)
  {
  }

  /** A superseded token can neither complete nor put back. */
  lemma SupersededIsRefused(c: Cell, cb: V.CallbackClaim)
    requires Superseded(c, cb)
    ensures forall now :: V.CompleteCallback(c.v.value, cb.row, cb.token, now) == Rollback(V.LeaseLost)
    ensures forall at :: V.RetryCallback(c.v.value, cb.row, cb.token, at) == Rollback(V.LeaseLost)
  {
  }

  /** How the venue's own steps treat the rows that exist: tokens are kept or cleared, never written. */
  ghost predicate TokensFrom(v: V.Order, u: V.Order) {
    && |v.callbacks| <= |u.callbacks|
    && forall k :: 0 <= k < |v.callbacks| ==>
         && (u.callbacks[k].token == v.callbacks[k].token || u.callbacks[k].token.None?)
         && (!v.callbacks[k].Open() ==> !u.callbacks[k].Open())
  }

  lemma VenueTokens(v: V.Order, menu: V.Menu, move: V.Move, id: Id, now: int)
    ensures V.Cancel(menu, Some(v), id, now).order.Some?
    ensures TokensFrom(v, V.Cancel(menu, Some(v), id, now).order.value)
    ensures TokensFrom(v, CommittedVenue(v, V.Transition(v, move, id, now)))
  {
    hide V.Release;
  }

  lemma FinishTokens(v: V.Order, cb: V.CallbackClaim, w: World, acked: bool, jitter: real)
    ensures TokensFrom(v, FinishedCallback(v, cb, w, acked, jitter))
  {
  }

  lemma TakeoverKeepsOthers(v: V.Order, k: nat, token: Id, now: int, lease: int, cb: V.CallbackClaim)
    requires k < |v.callbacks| && cb.row < |v.callbacks| && token != cb.token
    ensures !V.OwnsCallback(v, cb.row, cb.token) ==>
      !V.OwnsCallback(V.ClaimCallback(v, k, token, now, lease), cb.row, cb.token)
    ensures k != cb.row ==> V.ClaimCallback(v, k, token, now, lease).callbacks[cb.row] == v.callbacks[cb.row]
    ensures |V.ClaimCallback(v, k, token, now, lease).callbacks| == |v.callbacks|
  {
  }

  lemma SupersededStays(c: Cell, w: World, a: Action, cb: V.CallbackClaim)
    requires Enabled(c, w, a) && Superseded(c, cb)
    ensures Superseded(Step(c, w, a).cell, cb)
  {
    hide V.Cancel, V.Transition, FinishedCallback, P.CustomerCancel, P.RecordEvent, P.ClaimJob;
    hide FinishedConfirmation, FinishedCancellation, V.Serve;
    match a {
      case VenueDecides(cl, newId) => ServeShape(w.shop, c.v, cl.kind.command, newId);
      case VenueCancels(_, id) => VenueTokens(c.v.value, w.shop.menu, V.Complete, id, w.now);
      case StaffMoves(move, id) => VenueTokens(c.v.value, w.shop.menu, move, id, w.now);
      case FinishCallback(x, acked, jitter) => FinishTokens(c.v.value, x, w, acked, jitter);
      case TakeCallback(k, token, lease) => TakeoverKeepsOthers(c.v.value, k, token, w.now, lease, cb);
      case _ =>
    }
  }

  /** Over a whole run: once superseded, always refused. */
  lemma {:induction false} SupersededForEver(c: Cell, steps: seq<(World, Action)>, d: Cell, cb: V.CallbackClaim)
    requires Superseded(c, cb) && Path(c, steps, d)
    ensures Superseded(d, cb)
    ensures forall now :: V.CompleteCallback(d.v.value, cb.row, cb.token, now) == Rollback(V.LeaseLost)
    ensures forall at :: V.RetryCallback(d.v.value, cb.row, cb.token, at) == Rollback(V.LeaseLost)
    ensures forall w, a :: Enabled(d, w, a) && Finishes(a, cb) ==> Step(d, w, a) == Next(d, w.shop)
    decreases |steps|
  {
    hide Step, Enabled, Finishes;
    if steps == [] {
      SupersededIsRefused(d, cb);
      forall w, a | Enabled(d, w, a) && Finishes(a, cb) ensures Step(d, w, a) == Next(d, w.shop) {
        SupersededChangesNothing(d, w, a, cb);
      }
    } else {
      SupersededStays(c, steps[0].0, steps[0].1, cb);
      SupersededForEver(Step(c, steps[0].0, steps[0].1).cell, steps[1..], d, cb);
    }
  }

  /** The venue's own steps leave held rows alone; another worker's finish does not own them. */
  ghost predicate RowKept(v: V.Order, u: V.Order, row: nat) {
    row < |v.callbacks| && row < |u.callbacks| && u.callbacks[row] == v.callbacks[row]
  }

  lemma VenueKeepsRow(v: V.Order, menu: V.Menu, move: V.Move, id: Id, now: int, row: nat)
    requires row < |v.callbacks|
    ensures V.Cancel(menu, Some(v), id, now).order.Some?
    ensures RowKept(v, V.Cancel(menu, Some(v), id, now).order.value, row)
    ensures RowKept(v, CommittedVenue(v, V.Transition(v, move, id, now)), row)
  {
    hide V.Release;
  }

  lemma OthersFinishingKeepRow(v: V.Order, x: V.CallbackClaim, w: World, acked: bool, jitter: real, cb: V.CallbackClaim)
    requires V.OwnsCallback(v, cb.row, cb.token) && x.token != cb.token
    ensures RowKept(v, FinishedCallback(v, x, w, acked, jitter), cb.row)
  {
  }

  /** Nobody but its owner ends an unexpired lease. */
  lemma LeaseSurvivesStep(c: Cell, w: World, a: Action, cb: V.CallbackClaim)
    requires TokensUnique(c) && Enabled(c, w, a) && Holds(c, cb) && w.now <= cb.until && !Finishes(a, cb)
    ensures Holds(Step(c, w, a).cell, cb)
  {
    hide V.Cancel, V.Transition, FinishedCallback, P.CustomerCancel, P.RecordEvent, P.ClaimJob;
    hide FinishedConfirmation, FinishedCancellation, V.Serve;
    match a {
      case VenueDecides(cl, newId) => ServeShape(w.shop, c.v, cl.kind.command, newId);
      case VenueCancels(_, id) => VenueKeepsRow(c.v.value, w.shop.menu, V.Complete, id, w.now, cb.row);
      case StaffMoves(move, id) => VenueKeepsRow(c.v.value, w.shop.menu, move, id, w.now, cb.row);
      case FinishCallback(x, acked, jitter) => OthersFinishingKeepRow(c.v.value, x, w, acked, jitter, cb);
      case TakeCallback(k, token, lease) => TakeoverKeepsOthers(c.v.value, k, token, w.now, lease, cb);
      case _ =>
    }
  }

  /** Over any run inside the lease, the worker that comes back with a 204 marks its callback delivered. */
  lemma {:induction false} LeaseIsHonoured(c: Cell, steps: seq<(World, Action)>, d: Cell, cb: V.CallbackClaim)
    requires TokensUnique(c) && Holds(c, cb) && Path(c, steps, d)
    requires forall s :: s in steps ==> s.0.now <= cb.until && !Finishes(s.1, cb)
    ensures Holds(d, cb)
    ensures forall now ::
      var completed := V.CompleteCallback(d.v.value, cb.row, cb.token, now);
      completed.Commit? && completed.state.callbacks[cb.row].processedAt == Some(now)
    decreases |steps|
  {
    hide TokensUnique, Step, Enabled, Finishes;
    if steps != [] {
      var w, a := steps[0].0, steps[0].1;
      assert steps[0] in steps;
      StepKeepsTokens(c, w, a);
      LeaseSurvivesStep(c, w, a, cb);
      LeaseIsHonoured(Step(c, w, a).cell, steps[1..], d, cb);
    }
  }

  /** A worker that claims a callback and gets its 204 inside the lease marks the row delivered. */
  lemma ClaimIsHonoured(c: Cell, w: World, take: Action, steps: seq<(World, Action)>, d: Cell)
    requires TokensUnique(c) && take.TakeCallback? && Enabled(c, w, take) && Path(Step(c, w, take).cell, steps, d)
    requires var cb := V.CallbackClaimOf(c.v.value, take.row, take.token, w.now, take.lease);
      forall s :: s in steps ==> s.0.now <= cb.until && !Finishes(s.1, cb)
    ensures var cb := V.CallbackClaimOf(c.v.value, take.row, take.token, w.now, take.lease);
      && Holds(d, cb)
      && forall now ::
           var completed := V.CompleteCallback(d.v.value, cb.row, cb.token, now);
           completed.Commit? && completed.state.callbacks[cb.row].processedAt == Some(now)
  {
    StepKeepsTokens(c, w, take);
    TakeGrantsLease(c, w, take);
    hide TokensUnique, Holds, Step, Finishes;
    var cb := V.CallbackClaimOf(c.v.value, take.row, take.token, w.now, take.lease);
    LeaseIsHonoured(Step(c, w, take).cell, steps, d, cb);
  }
}
