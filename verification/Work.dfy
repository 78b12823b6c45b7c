/** No confirmation or cancellation is lost or queued twice, whatever the venue answers or reports. */
module Work {
  import opened Types
  import opened Platform

  /** A run of the platform against an arbitrary world: any calls, any arguments, any clock readings. */
  ghost function Run(p: Order, calls: seq<(Call, int)>): Order {
    if calls == [] then p
    else
      var last := calls[|calls| - 1];
      After(Run(p, calls[..|calls| - 1]), last.0, last.1)
  }

  lemma {:induction false} RunKeepsInv(p: Order, calls: seq<(Call, int)>)
    requires Inv(p)
    ensures Inv(Run(p, calls))
  {
    if calls != [] {
      var last := calls[|calls| - 1];
      RunKeepsInv(p, calls[..|calls| - 1]);
      CallKeepsInv(Run(p, calls[..|calls| - 1]), last.0, last.1);
    }
  }

  function OpenConfirmations(jobs: seq<OutboxRow>): nat {
    if jobs == [] then 0
    else OpenConfirmations(jobs[..|jobs| - 1])
         + (if jobs[|jobs| - 1].kind.ConfirmOrder? && jobs[|jobs| - 1].Open() then 1 else 0)
  }

  function OpenCancellations(jobs: seq<OutboxRow>): nat {
    if jobs == [] then 0
    else OpenCancellations(jobs[..|jobs| - 1])
         + (if jobs[|jobs| - 1].kind.CancelOrder? && jobs[|jobs| - 1].Open() then 1 else 0)
  }

  lemma {:induction false} CountJobs(jobs: seq<OutboxRow>)
    requires |jobs| > 0 && jobs[0].kind.ConfirmOrder?
    requires forall k :: 0 < k < |jobs| ==> jobs[k].kind.CancelOrder?
    requires forall k :: 0 < k < |jobs| - 1 ==> !jobs[k].Open()
    ensures OpenConfirmations(jobs) == if jobs[0].Open() then 1 else 0
    ensures OpenCancellations(jobs) == if |jobs| > 1 && jobs[|jobs| - 1].Open() then 1 else 0
  {
    var front := jobs[..|jobs| - 1];
    if |jobs| > 1 {
      CountJobs(front);
      assert |front| > 1 ==> !front[|front| - 1].Open();
    } else {
      assert front == [];
    }
  }

  /** In every reachable platform state an order waits for its confirmation exactly when one open
      confirmation job exists, and for its cancellation exactly when one open cancellation job exists. */
  lemma NoLostWork(venue: Id, command: OrderCommand, amount: int, currency: Currency, deadline: int,
                   createdAt: int, calls: seq<(Call, int)>)
    ensures var p := Run(Create(venue, command, amount, currency, deadline, createdAt), calls);
      && (p.row.status == Pending <==> OpenConfirmations(p.jobs) == 1)
      && OpenConfirmations(p.jobs) <= 1
      && (p.row.cancellation == Requested <==> OpenCancellations(p.jobs) == 1)
      && OpenCancellations(p.jobs) <= 1
      && (p.row.status == Cancelled <==> p.row.cancellation == Confirmed)
      && |p.history| > 0 && p.history[0].status == Pending && p.history[|p.history| - 1].status == p.row.status
  {
    var start := Create(venue, command, amount, currency, deadline, createdAt);
    CreateEstablishes(venue, command, amount, currency, deadline, createdAt);
    RunKeepsInv(start, calls);
    CountJobs(Run(start, calls).jobs);
  }

  // ---------- at-least-once delivery, exactly-once effect ----------

  function Receive(p: Order, venue: Id, delivery: (OrderEvent, int)): Order {
    Committed(p, RecordEvent(p, venue, delivery.0, false, delivery.1))
  }

  /** Deliveries of events, each with the time at which the platform handled it. */
  ghost function Feed(p: Order, venue: Id, deliveries: seq<(OrderEvent, int)>): Order {
    if deliveries == [] then p
    else
      var last := deliveries[|deliveries| - 1];
      var before := Feed(p, venue, deliveries[..|deliveries| - 1]);
      Receive(before, venue, last)
  }

  /** The deliveries that changed something when they arrived. */
  ghost function Effective(p: Order, venue: Id, deliveries: seq<(OrderEvent, int)>): seq<(OrderEvent, int)> {
    if deliveries == [] then []
    else
      var last := deliveries[|deliveries| - 1];
      var earlier := deliveries[..|deliveries| - 1];
      var before := Feed(p, venue, earlier);
      Effective(p, venue, earlier)
      + (if Receive(before, venue, last) == before then [] else [last])
  }

  function Events(deliveries: seq<(OrderEvent, int)>): (events: seq<OrderEvent>)
    ensures |events| == |deliveries|
  {
    seq(|deliveries|, i requires 0 <= i < |deliveries| => deliveries[i].0)
  }

  ghost predicate IsLog(log: seq<OrderEvent>) {
    && (forall k :: 0 <= k < |log| ==> log[k].sequence == k + 1)
    && (forall j, k :: 0 <= j < k < |log| ==> log[j].id != log[k].id)
  }

  lemma FeedAppend(p: Order, venue: Id, deliveries: seq<(OrderEvent, int)>, last: (OrderEvent, int))
    ensures var before := Feed(p, venue, deliveries);
      Feed(p, venue, deliveries + [last]) == Receive(before, venue, last)
  {
  }

  /** A delivery that changes the platform is the next event of the log. */
  lemma OnlyNextCounts(p: Order, venue: Id, log: seq<OrderEvent>, e: OrderEvent, now: int)
    requires Inv(p) && IsLog(log) && p.received <= log && e in log
    requires Receive(p, venue, (e, now)) != p
    ensures |p.received| < |log| && e == log[|p.received|]
    ensures Receive(p, venue, (e, now)).received == p.received + [e]
    ensures Inv(Receive(p, venue, (e, now)))
  {
    RecordKeepsInv(p, venue, e, false, now);
    var k :| 0 <= k < |log| && log[k] == e;
  }

  /** `q` is what `p` becomes when it receives the next events of the log, once each, in order. */
  ghost predicate CaughtUp(p: Order, venue: Id, log: seq<OrderEvent>, q: Order, effective: seq<(OrderEvent, int)>) {
    && Inv(q)
    && q == Feed(p, venue, effective)
    && |p.received| + |effective| <= |log|
    && Events(effective) == log[|p.received|..|p.received| + |effective|]
    && q.received == log[..|p.received| + |effective|]
  }

  lemma CatchUp(p: Order, venue: Id, log: seq<OrderEvent>, q: Order, effective: seq<(OrderEvent, int)>,
       d: (OrderEvent, int))
    requires IsLog(log) && CaughtUp(p, venue, log, q, effective) && d.0 in log
    requires Receive(q, venue, d) != q
    ensures CaughtUp(p, venue, log, Receive(q, venue, d), effective + [d])
  {
    OnlyNextCounts(q, venue, log, d.0, d.1);
    hide Inv, Feed, Receive, Events;
    FeedAppend(p, venue, effective, d);
    NextSlice(log, |p.received|, effective, d);
  }

  lemma NextSlice(log: seq<OrderEvent>, m: nat, effective: seq<(OrderEvent, int)>, d: (OrderEvent, int))
    requires m + |effective| < |log| && d.0 == log[m + |effective|]
    requires Events(effective) == log[m..m + |effective|]
    ensures Events(effective + [d]) == log[m..m + |effective| + 1]
    ensures log[..m + |effective| + 1] == log[..m + |effective|] + [d.0]
  {
    assert Events(effective + [d]) == Events(effective) + [d.0];
  }

  /** Duplicates, gaps and reordering of one log have the effect of its next events, once each, in order. */
  lemma {:induction false} ExactlyOnce(p: Order, venue: Id, log: seq<OrderEvent>, deliveries: seq<(OrderEvent, int)>)
    requires Inv(p) && IsLog(log) && p.received <= log
    requires forall d :: d in deliveries ==> d.0 in log
    ensures CaughtUp(p, venue, log, Feed(p, venue, deliveries), Effective(p, venue, deliveries))
  {
    if deliveries != [] {
      var last, earlier := deliveries[|deliveries| - 1], deliveries[..|deliveries| - 1];
      ExactlyOnce(p, venue, log, earlier);
      var before := Feed(p, venue, earlier);
      assert last in deliveries;
      if Receive(before, venue, last) == before {
        assert Effective(p, venue, deliveries) == Effective(p, venue, earlier);
      } else {
        CatchUp(p, venue, log, before, Effective(p, venue, earlier), last);
      }
    }
  }

  /** An event that arrives before the confirmation changes nothing and is accepted after it. */
  lemma EarlyEventIsRetried(p: Order, k: nat, token: Id, decision: Decision, e: OrderEvent, now: int, later: int)
    requires Inv(p) && p.row.status == Pending && Owns(p, k, token) && decision.Accept?
    requires e.sequence == 1 && e.kind in {OrderPreparing, OrderCancelled}
    ensures RecordEvent(p, p.row.venue, e, false, now) == Rollback(InvalidTransition)
    ensures var q := Resolve(p, k, token, decision, now).state;
      var t := RecordEvent(q, p.row.venue, e, false, later);
      t.Commit? && t.state.received == [e]
      && t.state.row.status == if e.kind == OrderPreparing then Preparing else Cancelled
  {
  }
}
