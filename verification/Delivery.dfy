/** What the platform answers to the callbacks this venue really sends. */
module Delivery {
  import opened Types
  import opened Protocol
  import opened Progress
  import opened System
  import opened Runs
  import C = Catalog
  import P = Platform
  import V = Venue
  import K = Checkout
  import Money
  import Stock

  /** An event that was not recorded yet is always the next one, and its kind fits the status exactly when
      the acceptance has been applied. */
  lemma NextEventFits(c: Cell, cb: V.CallbackClaim)
    requires Protocol.Inv(c) && cb in c.net.callbacksSent && P.FindEvent(c.p.received, cb.event.id).None?
    ensures cb.event.sequence == c.p.row.sequence + 1
    ensures P.EventTransition(c.p.row.status, cb.event.kind).Some? <==> WasAccepted(c.p)
    ensures !WasAccepted(c.p) ==> c.p.row.status in {Pending, Expired}
  {
    var v, k := c.v.value, cb.row;
    assert cb in c.net.callbackClaims;
    forall j | 0 <= j < |c.p.received| ensures c.p.received[j] == v.callbacks[j].event {
      assert c.p.received[j] == V.Log(v)[j];
    }
    if k > 0 {
      assert !v.callbacks[k - 1].Open();
    }
    assert v.status != Rejected;
    if WasAccepted(c.p) {
      ReplayFollowsLog(c);
      assert cb.event.kind == V.LogOf(v.status)[k];
    }
  }

  /** Sequence gaps and conflicts never happen: a callback is refused exactly while the platform has not
      applied the acceptance (or for ever, when the confirmation expired); otherwise it is recorded or repeated. */
  lemma CallbackOutcome(c: Cell, cb: V.CallbackClaim, now: int)
    requires Protocol.Inv(c) && cb in c.net.callbacksSent
    ensures var reply := P.RecordEvent(c.p, c.p.row.venue, cb.event, false, now);
      if cb.event in c.p.received then reply == Commit(c.p)
      else if c.p.row.status in {Pending, Expired} then reply == Rollback(P.InvalidTransition)
      else reply.Commit? && reply.state.received == c.p.received + [cb.event]
    ensures c.p.row.status in {Pending, Expired} ==> c.p.received == []
  {
    var existing := P.FindEvent(c.p.received, cb.event.id);
    if existing.Some? {
      SameIdSameEvent(c, cb, existing.value);
    } else {
      NextEventFits(c, cb);
    }
  }

  lemma SameIdSameEvent(c: Cell, cb: V.CallbackClaim, e: OrderEvent)
    requires Protocol.Inv(c) && cb in c.net.callbacksSent && e in c.p.received && e.id == cb.event.id
    ensures e == cb.event
  {
  }

  // ---------- event ids are unique over all orders ----------

  function EventIds(c: Cell): set<Id> {
    if c.v.None? then {}
    else set k | 0 <= k < |c.v.value.callbacks| :: c.v.value.callbacks[k].event.id
  }

  ghost predicate DistinctEvents(cells: map<Id, Cell>) {
    forall o, x :: o in cells && x in cells && o != x ==> EventIds(cells[o]) !! EventIds(cells[x])
  }

  /** Every order belongs to the one venue of this system. */
  ghost predicate OwnOrders(s: State) {
    forall o :: o in s.cells ==> s.cells[o].p.row.venue == s.front.id
  }

  predicate Issues(a: Action) {
    a.VenueCancels? || a.StaffMoves?
  }

  lemma StepIssues(c: Cell, w: World, a: Action)
    requires Enabled(c, w, a)
    ensures EventIds(Step(c, w, a).cell) <= EventIds(c) + (if Issues(a) then {a.eventId} else {})
  {
  }

  lemma EventKeepsDistinct(s: State, e: Event)
    requires System.Inv(s) && CanHappen(s, e) && DistinctEvents(s.cells)
    ensures DistinctEvents(Apply(s, e).cells)
  {
    hide Protocol.Inv, Money.Priced, Carries, Stock.NotNegative, K.Price, K.ValidRequest, Step, Enabled, C.Inv;
    var t := Apply(s, e);
    if e.Act? {
      StepIssues(s.cells[e.order], WorldOf(s), e.action);
      forall o, x | o in t.cells && x in t.cells && o != x ensures EventIds(t.cells[o]) !! EventIds(t.cells[x]) {
        if Issues(e.action) {
          FreshMeansNew(s.cells[o], e.action.eventId);
          FreshMeansNew(s.cells[x], e.action.eventId);
        }
      }
    }
  }

  lemma FreshMeansNew(c: Cell, id: Id)
    ensures FreshEvent(c, id) <==> id !in EventIds(c)
  {
  }

  lemma EventKeepsOwners(s: State, e: Event)
    requires System.Inv(s) && CanHappen(s, e) && OwnOrders(s)
    ensures OwnOrders(Apply(s, e))
  {
    hide Protocol.Inv, Money.Priced, Carries, Stock.NotNegative, K.Price, K.ValidRequest, Step, Enabled, C.Inv;
    if e.Act? {
      assert Sound(s.cells[e.order], e.order, s.purchases[e.order]);
      StepIsLater(s.cells[e.order], WorldOf(s), e.action);
    }
  }

  lemma {:induction false} RunKeepsDistinct(s: State, events: seq<Event>, t: State)
    requires System.Inv(s) && Run(s, events, t) && DistinctEvents(s.cells) && OwnOrders(s)
    ensures DistinctEvents(t.cells) && OwnOrders(t)
    decreases |events|
  {
    hide System.Inv, DistinctEvents, OwnOrders, Apply, CanHappen;
    if events != [] {
      EventKeepsInv(s, events[0]);
      EventKeepsDistinct(s, events[0]);
      EventKeepsOwners(s, events[0]);
      RunKeepsDistinct(Apply(s, events[0]), events[1..], t);
    }
  }

  lemma NotRecordedElsewhere(s: State, o: Id, cb: V.CallbackClaim)
    requires System.Inv(s) && DistinctEvents(s.cells) && o in s.cells && cb in s.cells[o].net.callbacksSent
    ensures !RecordedElsewhere(s, o, cb.event.id)
  {
    var c := s.cells[o];
    assert Sound(c, o, s.purchases[o]);
    assert cb in c.net.callbackClaims;
    assert cb.event.id in EventIds(c);
    if x :| x in s.cells && x != o && P.FindEvent(s.cells[x].p.received, cb.event.id).Some? {
      assert Sound(s.cells[x], x, s.purchases[x]);
      RecordedIsIssued(s.cells[x], cb.event.id);
    }
  }

  lemma RecordedIsIssued(c: Cell, id: Id)
    requires Protocol.Inv(c) && P.FindEvent(c.p.received, id).Some?
    ensures id in EventIds(c)
  {
  }

  lemma OutcomeHere(t: State, o: Id, cb: V.CallbackClaim, elsewhere: bool)
    requires System.Inv(t) && DistinctEvents(t.cells) && OwnOrders(t)
    requires CanHappen(t, Act(o, PlatformRecords(cb, elsewhere)))
    ensures var reply := P.RecordEvent(t.cells[o].p, t.front.id, cb.event, elsewhere, t.now);
      && (reply.Rollback? <==> t.cells[o].p.row.status in {Pending, Expired})
      && (reply.Rollback? ==> reply.error == P.InvalidTransition)
  {
    hide Money.Priced, Carries, Stock.NotNegative, C.Inv, P.RecordEvent, Protocol.Inv, DistinctEvents;
    assert Sound(t.cells[o], o, t.purchases[o]);
    NotRecordedElsewhere(t, o, cb);
    CallbackOutcome(t.cells[o], cb, t.now);
  }

  /** In every reachable state a callback that reaches the platform is refused exactly when the order is still
      pending there or its confirmation expired, and never for a conflicting event id or sequence. */
  lemma RefusedOnlyBeforeAcceptance(s: State, events: seq<Event>, t: State, o: Id, cb: V.CallbackClaim, elsewhere: bool)
    requires Initial(s) && Run(s, events, t)
    requires C.Inv(t.front.tables) && CanHappen(t, Act(o, PlatformRecords(cb, elsewhere)))
    ensures var reply := P.RecordEvent(t.cells[o].p, t.front.id, cb.event, elsewhere, t.now);
      && (reply.Rollback? <==> t.cells[o].p.row.status in {Pending, Expired})
      && (reply.Rollback? ==> reply.error == P.InvalidTransition)
  {
    InitialIsSound(s);
    hide System.Inv, Run, CanHappen, P.RecordEvent;
    RunKeepsInv(s, events, t);
    RunKeepsDistinct(s, events, t);
    OutcomeHere(t, o, cb, elsewhere);
  }
}
