# Order protocol, stock and menu: a verified model

Two services take food orders. The platform owns the catalogue copy, checkout and the customer's order; the
venue owns stock and the decision. Each has its own database, and they talk only through two transactional
outboxes with at-least-once delivery, leases and fencing tokens. This Dafny project models both sides and
everything between them, and proves what the two databases guarantee together.

`dafny verify dfyconfig.toml` checks the whole project.

## How it is built

| file | content |
|---|---|
| Types | values that both services exchange |
| Platform, Venue | one order on each side: what every transaction does to its rows, and what it keeps |
| PlatformRules, VenueRules | what each transaction does to columns, case by case, without the functions it is built from |
| Worker, Queues | delivery policy and delays; when the two outboxes hand a row out, over runs |
| Protocol | one order seen from outside: platform rows, venue rows, and everything workers hold or the network carries; the invariant that every step keeps |
| Progress, Agreement, Delivery | what the invariant says about two states of a run, about both databases, and about callbacks |
| Journeys | runs that complete or cancel any acceptable order |
| Work, Fencing, CallbackFencing | platform-only runs against an arbitrary world; leases and tokens of both queues over runs |
| Stock, Money, Amounts | conservation of stock, exact money |
| Locking, Interleaving | the venue's decisions, cancellations and moves interleaved statement by statement under their locks; serial order, stock and deadlock freedom over runs |
| SerialRuns, Cycles, Deadlocks | exactly which calls may deadlock; the converse of serializability |
| Checkout, Validation | canonical form, pricing, idempotency, request checks |
| Catalog, MenuStore | versioned snapshots, and the menu read back from rows |
| System, Runs | many orders, menus, shop and clock together, over whole runs |
| PlatformStore, VenueStore, MenuStore, Workers | the repositories and worker rounds in imperative form, over mutable tables, each proved against the functions above |
| Limiter | the fixed-window limiter over whole histories |

A committed transaction is one step, because an error rolls everything back
(internal/shared/postgres/postgres.go:116-130); only the modules from Locking to Deadlocks
take a transaction apart. The network is a growing set of claims, requests and replies: each may be used late, many
times or never, so crashes, lost answers, duplicates and stale workers are all covered by the same steps.

## Assumptions

- Freshly generated ids (orders, tokens, events, rows) are new. Ids are opaque and compared exactly.
- The tables are written by the modelled functions only, and an order's events come from its own venue's
  callback worker. `Work` makes no assumption about the venue at all.
- Both databases and all workers read one clock that does not go back. Leases and deadlines are compared with
  that clock; the deadline check of a worker may have been made at any earlier moment.
- Request and snapshot hashes are injective on canonical forms, so a stored hash is modelled by the form itself.
- A row of a table with an order's foreign key is addressed by its position among the rows of that order.
- The rows a query returns, the answer of the other service, clock readings and jitter are parameters. A claim
  query may return any of its candidates, since rows locked by other workers are skipped.
- Between steps the shop may change its prices, availability, version and opening at will, but stock only moves
  through orders.
- There is one venue, as in the repository.

## Exceptions, and where the code and its documentation differ

- docs/decisions/order-state-machine.md:31 and internal/platform/repository/events.go:96 allow
  `preparing` to become `cancelled`. This venue never issues such an event (`Progress.CancelOrPrepare`), so the
  edge is never taken (`Runs.HistoryIsLegal`).
- A platform order in `confirmation_expired` may leave an accepted order with its reservation at the venue
  (docs/decisions/architecture-tradeoffs.md:48-57). `Agreement.AgreementAtQuiescence` shows that this is the only
  disagreement, `Agreement.ExpiredMayStayReserved` that it is reachable for every order the venue would accept.
- A cancellation confirmed by the HTTP reply is shown before the venue's own event is recorded. It is the one case
  in which the platform is ahead of the replayed log (`Agreement.LaggingReplay`).
- A cancellation locks the item rows of its release in no stated order, so it may deadlock with a decision that locks
  them in ascending order (`Deadlocks.CancellationMayDeadlock`); the database then aborts one of the two, which
  leaves no trace (`Locking.AbortRefines`). Exactly when: two such calls may deadlock if and only if two different items
  with finite stock are on both orders (`Deadlocks.TwoCallsDeadlock`); any number of calls if and only if there is a
  cycle of them in which each can hold a row that the one before it wants next (`Deadlocks.KnownOrdersDeadlock`, and
  `Deadlocks.DeadlocksExactlyInCycles` where a call may also cancel an order that another one creates).
  A decision can hold a row and wait for another only upwards, and it needs all its rows below; a cancellation may hold
  any one of its rows and wait for any other. Decisions among themselves never deadlock.
- The limiter admits up to `2 * limit - 1` calls in one second that spans two windows (`Limiter.BoundIsReached`).

## Model

| member | source | states |
|---|---|---|
| Protocol.StepKeepsInv | internal/platform/repository/outbox.go:16-168 | Every step of every participant (customer, platform workers, network, venue, staff, callback workers), with requests and replies used late, repeatedly or never, keeps the invariant that ties both databases of one order together |
| Protocol.CreateEstablishes | internal/platform/repository/orders.go:116-161 | A freshly inserted order, before anything was claimed or sent, satisfies that invariant |
| Protocol.CancelledFromAccepted | internal/platform/repository/outbox.go:103-111 | The unguarded update to `cancelled` only ever runs on an order whose status is `accepted`, and the venue has cancelled it by then |
| Protocol.DuplicateIsRecorded | internal/platform/repository/events.go:31-40 | A callback whose id is already known is the recorded event itself, never a conflicting one |
| Protocol.ResolveStep | internal/platform/repository/outbox.go:47-86 | Applying a saved venue decision, also late or twice, keeps the invariant of both sides |
| Protocol.ResolveCancellationStep | internal/platform/repository/outbox.go:88-117 | Applying a saved cancellation decision keeps the invariant although the code does not look at the status |
| Protocol.GiveUpStep | internal/platform/repository/outbox.go:135-166 | Giving up a job keeps the invariant: a confirmation expires, a cancellation fails |
| Protocol.RecordStep | internal/platform/repository/events.go:15-86 | Handling any callback that was ever sent keeps the invariant, whether it is recorded, repeated or refused |
| Protocol.VenueDecidesStep | internal/venue/repository/orders.go:18-142 | Serving any request that was ever sent keeps the invariant; every reply carries the saved decision |
| Protocol.VenueCancelsStep | internal/venue/repository/orders.go:220-288 | Serving any cancellation that was ever sent keeps the invariant; every reply carries the saved answer |
| Protocol.TakeCallbackStep | internal/venue/repository/callbacks.go:15-50 | A callback lease is granted only behind delivered callbacks, and stays so for as long as the claim exists |
| Progress.StepIsLater | internal/platform/repository/outbox.go:47-168 | No step rewrites history, recorded events, finished jobs, saved decisions or delivered callbacks, and a refused cancellation is never forgotten |
| Progress.PathIsLater | internal/platform/repository/outbox.go:47-168 | The same over any number of steps, while the rest of the world changes at will |
| Progress.TerminalIsFinal | docs/decisions/order-state-machine.md:9-18 | A terminal status and its history never change again in any continuation |
| Progress.CancelledMeansReleased | internal/platform/repository/orders.go:188-209 | Once the platform shows `cancelled`, the venue has no order or a cancelled one in every continuation; an order cancelled before its first claim is never received |
| Progress.RefusalIsFinal | internal/platform/repository/outbox.go:112-115 | A refused cancellation is truthful: the venue saved that refusal, and neither side ever shows the order cancelled |
| Progress.CancelOrPrepare | internal/venue/repository/orders.go:241-284 | A venue log never holds both a cancellation and the start of preparation |
| Progress.CancelIsRepeatable | internal/venue/repository/orders.go:235-240 | From the first answer on, over any run, every repeat of a cancel command returns it and changes neither order nor stock |
| Progress.ConfirmationsStayInTime | internal/platform/service/outbox.go:83-133 | Over any run, whatever is lost or late, a confirmation that is still open is due strictly before its deadline |
| Progress.ReplayFollowsLog | internal/platform/repository/events.go:88-103 | Replaying the events the platform recorded gives the venue status that had issued exactly those events |
| Agreement.AgreementAtQuiescence | internal/platform/repository/events.go:15-86 | When both outboxes are empty the two statuses agree if and only if the confirmation did not expire; behind an expired one the venue has issued no event |
| Agreement.LaggingReplay | internal/platform/repository/events.go:44-74 | The platform status is the replay of the first `venue_event_sequence` events of the venue log, except for a cancellation confirmed ahead of its own callback |
| Agreement.VenueReplaysItsLog | internal/venue/repository/orders.go:304-333 | The venue status is the replay of everything it has issued |
| Agreement.ExpiredMayStayReserved | docs/decisions/architecture-tradeoffs.md:48-57 | For every order the venue would accept there is a run in which only the clock moves, every answer is lost although it may be retried, the platform shows `confirmation_expired` and the venue keeps the accepted order |
| Agreement.DeliverySandwich | internal/venue/repository/callbacks.go:22-41 | Delivered callbacks are a prefix of the issued ones, leases stand only on the next one, and the platform has recorded exactly that prefix or one event more |
| Journeys.OrderCanBeCompleted | docs/decisions/order-state-machine.md:20-32 | For every order the venue would accept there is a run to completed on both sides with nothing left under way |
| Journeys.OrderCanBeCancelled | docs/decisions/order-state-machine.md:20-32 | For every order the venue would accept there is a run in which the customer cancels the accepted order and both sides end cancelled with nothing left under way |
| Delivery.CallbackOutcome | internal/platform/repository/events.go:31-51 | A callback this venue sent is either a repeat, or refused because the acceptance has not been applied, or recorded; sequence gaps and id conflicts do not occur |
| Delivery.NextEventFits | internal/platform/repository/events.go:44-51 | A callback that was not recorded yet is always the next one, and its kind fits the status exactly when the acceptance has been applied |
| Delivery.RefusedOnlyBeforeAcceptance | internal/platform/repository/events.go:15-51 | Over whole runs of many orders a callback is refused if and only if its order is pending or expired on the platform, always with the transition error |
| Platform.CallKeepsInv | internal/platform/repository/outbox.go:16-168 | Any call with any arguments keeps the platform-only invariant, whatever the venue does |
| Platform.OpenConfirmationIsFirst | internal/platform/repository/orders.go:191-193 | The one open confirmation job is the first job, and exists exactly while the order is pending |
| PlatformRules.CancellationRules | internal/platform/repository/orders.go:183-224 | A customer cancellation in columns: accepted with none or failed is requested with exactly one more open, unclaimed job; pending and never claimed is cancelled at once with its job closed; requested, rejected and confirmed are repeated unchanged; it is refused if and only if the order is pending after a claim or in any other status |
| PlatformRules.DecisionRules | internal/platform/repository/outbox.go:52-83 | A venue decision in columns: lease lost without a write, status with external id or reason and one history row for a pending order, only the job closed for any other |
| PlatformRules.AnswerRules | internal/platform/repository/outbox.go:95-116 | A cancellation answer in columns: it changes the order only while the cancellation is requested |
| PlatformRules.RetryRules | internal/platform/repository/outbox.go:119-166 | Putting back changes available_at and the lease of one row only; giving up in columns: a pending order expires with one history row, a requested cancellation fails, everything else stays |
| PlatformRules.EventRules | internal/platform/repository/events.go:27-51 | Each error of a callback exactly when its check is the first to fail, an exact repeat changes nothing, and exactly the six moves of the transition table are taken |
| PlatformRules.RecordedRules | internal/platform/repository/events.go:52-84 | The rows after a recorded event: status of the table, sequence, event row, history row if the status changes, cancellation confirmed and its jobs closed |
| Queues.JobIsHandedOut | internal/platform/repository/outbox.go:23-30 | A job can be handed out if and only if it is open, due, unlocked or its lease is over, and its order is pending or its cancellation requested; its row and the worker get lease, token and one more attempt |
| Queues.NotBeforeItIsDue | internal/platform/repository/outbox.go:23-30 | Over any run: a job that was put back until some moment is not handed out before that moment |
| Queues.FailedAttemptWaits | internal/platform/service/outbox.go:113-118 | Over any run after a failed attempt nobody tries that job again before its retry delay is over |
| Queues.ConfirmationRound | internal/platform/service/outbox.go:83-118 | A worker that holds a pending confirmation decides, puts back or expires it, each exactly under its condition |
| Queues.CancellationRound | internal/platform/service/outbox.go:88-118 | A worker that holds a requested cancellation applies the answer, puts it back or fails it, each exactly under its condition |
| Queues.CallbackIsHandedOut | internal/venue/repository/callbacks.go:22-34 | A callback can be handed out if and only if it is open, due, unlocked or its lease is over, and every earlier one is delivered; its row and the worker get lease, token and one more attempt |
| Queues.CallbackNotBeforeItIsDue | internal/venue/repository/callbacks.go:22-34 | Over any run: a callback that was put back until some moment is not handed out before that moment |
| Queues.FailedDeliveryWaits | internal/venue/service/callbacks.go:79-87 | Over any run after a failed delivery nobody sends that callback again before its retry delay is over |
| Queues.CallbackRules | internal/venue/repository/callbacks.go:52-76 | Complete and retry write exactly their columns of one row, and lease lost if and only if the token is not that of the open row |
| Queues.CallbackRound | internal/venue/service/callbacks.go:79-97 | A held callback is marked delivered if and only if it was acknowledged, otherwise put back with its delay |
| Work.NoLostWork | internal/platform/repository/outbox.go:52-158 | Over any run against any venue: pending if and only if exactly one open confirmation job exists, cancellation requested if and only if exactly one open cancellation job exists, and cancelled if and only if the cancellation is confirmed |
| Work.ExactlyOnce | internal/platform/repository/events.go:15-86 | Any list of deliveries of one log, with duplicates, gaps and reordering, has the effect of its next events received once each in order |
| Work.EarlyEventIsRetried | internal/platform/repository/events.go:48-51 | An event that overtakes the confirmation changes nothing and is accepted afterwards |
| Fencing.TakeoverSupersedes | internal/platform/repository/outbox.go:33-36 | A new claim supersedes every earlier claim on the job |
| Fencing.SupersededForEver | internal/platform/repository/outbox.go:52-59 | A superseded token never becomes valid again: in every continuation resolve, retry and give-up return lease lost, and its worker changes nothing however its round ends |
| Fencing.OneOwner | internal/platform/repository/outbox.go:22-36 | No two claims hold one job |
| Fencing.LeaseSurvivesStep | internal/platform/repository/outbox.go:47-168 | No step of anybody else ends an unexpired lease, except the callback that confirms the cancellation |
| Fencing.LeaseIsHonoured | internal/platform/repository/outbox.go:47-69 | Over any run inside the lease, a confirmation decision that returns in time becomes the status of the order |
| Fencing.ClaimIsHonoured | internal/platform/repository/outbox.go:22-69 | From the claim on: whatever the others do until the lease ends, the worker that claimed a confirmation and returns in time has its decision applied |
| CallbackFencing.TakeoverSupersedes | internal/venue/repository/callbacks.go:37-41 | A new callback claim supersedes every earlier claim on the row |
| CallbackFencing.SupersededForEver | internal/venue/repository/callbacks.go:52-75 | A superseded callback token is refused by complete and retry in every continuation, and its worker changes nothing |
| CallbackFencing.OneOwner | internal/venue/repository/callbacks.go:22-41 | No two callback claims hold one row |
| CallbackFencing.LeaseSurvivesStep | internal/venue/repository/callbacks.go:22-41 | No step of anybody else ends an unexpired callback lease |
| CallbackFencing.LeaseIsHonoured | internal/venue/repository/callbacks.go:52-63 | Over any run inside the lease, the worker that comes back with an acknowledgement marks its callback delivered |
| CallbackFencing.ClaimIsHonoured | internal/venue/repository/callbacks.go:22-63 | From the claim on: whatever the others do until the lease ends, the worker that claimed a callback and is acknowledged in time marks it delivered |
| Worker.BackoffBounds | internal/platform/service/outbox.go:141-148 | The delay is the doubled base, plus at most a quarter of it |
| Worker.RetryDelays | internal/platform/service/outbox.go:141-148 | The delays in seconds for every attempt: doubling from 1 to 32 (64 for callbacks), each with at most a quarter on top |
| Worker.ConfirmationPolicy | internal/platform/service/outbox.go:83-118 | A confirmation is applied, put back or given up, each if and only if its condition holds; it is put back only before its deadline |
| Worker.CancellationPolicy | internal/platform/service/outbox.go:88-118 | A cancellation is given up if and only if it may not be retried or has no attempt left |
| Worker.BackoffGrows | internal/venue/service/callbacks.go:100-107 | Until the cap the next delay is strictly longer, whatever both jitters are |
| PlatformStore.Repository.CreateOrder | internal/platform/repository/orders.go:17-165 | Returns the stored order for a repeated key, refuses another request under it, and otherwise inserts order, lines, history and job, or changes nothing; every line is at the price of its active, available row, every total is price times quantity, the amount is their sum, and the one job orders exactly those lines |
| PlatformStore.PriceBasket | internal/platform/repository/orders.go:54-107 | The pricing loops return exactly the declared basket or error, in the order of the checks; a basket charges the prices of the menu rows |
| PlatformStore.LoadMenuItems | internal/platform/repository/orders.go:60-86 | The row scan finds exactly the selectable requested items, or stops if and only if one has a foreign currency |
| PlatformStore.BuildItems | internal/platform/repository/orders.go:90-104 | The guarded sum is the mathematical total, and the overflow error appears exactly when that total leaves int64 |
| PlatformStore.Repository.CancelOrder | internal/platform/repository/orders.go:171-229 | Local cancellation before the first claim, remote request after acceptance, repeats unchanged, everything else refused; other orders untouched |
| PlatformStore.Repository.ClaimOutbox | internal/platform/repository/outbox.go:16-45 | In columns: leases one row that is open, due, unlocked or its lease over, and whose order waits for it, and reports none only when no such row exists |
| PlatformStore.Repository.ResolveOutbox | internal/platform/repository/outbox.go:47-86 | New rows of the order after a decision, lease lost without any write, other orders untouched |
| PlatformStore.Repository.ResolveCancellation | internal/platform/repository/outbox.go:88-117 | New rows of the order after a cancellation answer, lease lost without any write, other orders untouched |
| PlatformStore.Repository.RetryOutbox | internal/platform/repository/outbox.go:119-168 | Rescheduled or terminally failed job with the matching order status, lease lost without any write |
| PlatformStore.Repository.RecordOrderEvent | internal/platform/repository/events.go:15-86 | Every error branch leaves all tables unchanged; an accepted event updates event, order, job and history rows of its order only |
| PlatformStore.ApplyOrderEvent | internal/platform/repository/events.go:57-83 | The writes of one accepted event |
| Workers.ProcessJob | internal/platform/service/outbox.go:74-133 | One worker round over the tables: which due row is claimed, in columns, and the order after deadline check, delivery and retry policy |
| Workers.FinishConfirmation | internal/platform/service/outbox.go:83-118 | Deadline check, delivery and retry policy of a confirmation have the effect used in the interleaved model |
| Workers.FinishCancellation | internal/platform/service/outbox.go:88-118 | Delivery and retry policy of a cancellation have the effect used in the interleaved model |
| Workers.ProcessCallback | internal/venue/service/callbacks.go:70-98 | One callback worker round over the tables: which due row is claimed, in columns; a refused callback is always put back |
| VenueStore.Repository.DecideOrder | internal/venue/repository/orders.go:18-142 | The transaction over the tables has exactly the effect of the declared decision: reply, stock, one order, no other order; a new command is answered as the menu columns say |
| VenueStore.Scan | internal/venue/repository/orders.go:81-109 | The loop returns the declared verdict, and the managed lines of a served order are the requested lines |
| VenueStore.VerdictRules | internal/venue/repository/orders.go:81-109 | In menu columns, when the total fits: menu_changed if and only if some line has another price or another currency than an earlier servable line; accepted if and only if every line exists, is available, has its price, the currency of the first and enough stock; otherwise the list is exactly the missing, switched off or short lines in order |
| VenueStore.DecisionRules | internal/venue/repository/orders.go:33-140 | A new command whose total fits: which answer, stored order and stock, each in columns and each exactly under its condition |
| VenueStore.OverflowRules | internal/venue/repository/orders.go:96-103 | A command that could be served but whose total leaves int64 gets the overflow error and is not stored |
| VenueRules.CancellationRules | internal/venue/repository/orders.go:220-288 | A cancel command in columns: not found, saved answer, refusal with the current status, or cancelled with the next numbered event and every finite item given back |
| VenueRules.MoveRules | internal/venue/repository/orders.go:290-333 | A repeated move answers the unchanged order, a move out of turn is refused, and a move in turn issues the next numbered event |
| VenueStore.Repository.InsertRejected | internal/venue/repository/orders.go:144-157 | A refusal is stored without lines and without callbacks |
| VenueStore.Repository.ReserveStock | internal/venue/repository/orders.go:110-115 | One update per line over rows with finite stock |
| VenueStore.Repository.CancelOrder | internal/venue/repository/orders.go:220-288 | Reply, released stock, saved answer and callback of one order; other orders untouched |
| VenueStore.Repository.TransitionOrder | internal/venue/repository/orders.go:290-338 | Idempotent repeat, refused or applied move, with the numbered callback in the same transaction |
| VenueStore.Repository.ClaimCallback | internal/venue/repository/callbacks.go:15-50 | In columns: leases one row that is open, due, unlocked or its lease over, behind delivered rows only, and reports none only when no such row exists |
| VenueStore.Repository.CompleteCallback | internal/venue/repository/callbacks.go:52-63 | Marks the row delivered, or lease lost without any write |
| VenueStore.Repository.RetryCallback | internal/venue/repository/callbacks.go:65-76 | Puts the row back, or lease lost without any write |
| Venue.ServeKeepsInv | internal/venue/repository/orders.go:18-142 | A decision keeps the venue-only invariant of the order |
| Venue.CancelKeepsInv | internal/venue/repository/orders.go:220-288 | A cancellation keeps numbering, log and delivery order |
| Venue.TransitionKeepsInv | internal/venue/repository/orders.go:290-338 | A move keeps numbering, log and delivery order |
| Venue.ClaimKeepsInv | internal/venue/repository/callbacks.go:22-41 | A claim keeps delivery order, and everything before the claimed row is delivered |
| Stock.ReleaseUndoesReserve | internal/venue/repository/orders.go:251-255 | For positive quantities, releasing what was reserved restores the menu if and only if no item with finite stock is on two lines |
| Stock.JoinedFallsShort | internal/venue/repository/orders.go:251-255 | The single joined row returns the whole demand of an item if and only if no second line names it |
| Stock.StepConserves | internal/venue/repository/orders.go:91-115 | Every step of an order conserves shelf plus held quantities of every item and keeps all stock non-negative |
| Stock.ServeConserves | internal/venue/repository/orders.go:110-115 | A decision moves quantities from the shelf to its order and nowhere else |
| Stock.OfferedStaysInStock | internal/venue/repository/orders.go:91-115 | Reserving unique offered lines leaves no stock negative |
| Locking.AdvanceRefines | internal/venue/repository/orders.go:20-338 | Each statement of an interleaved decision, cancellation or staff move either leaves everything committed unchanged or completes the transaction with exactly the effect and the reply of one atomic call |
| Locking.AbortRefines | internal/shared/postgres/postgres.go:116-130 | A failure at any statement leaves no trace |
| Locking.ScanIsCurrent | internal/venue/repository/orders.go:54-79 | The rows that a decision has locked are the committed ones until it ends, so its verdict is the atomic one |
| Locking.ReleaseCommits | internal/venue/repository/orders.go:251-257 | Releasing row by row in any order has the committed effect of one release |
| Interleaving.RunIsSerial | internal/venue/repository/orders.go:18-338 | Any interleaving of any number of decisions, cancellations and staff moves commits and answers what its completed calls commit and answer one after another, in the order of their last statements |
| Interleaving.NeverOversold | docs/decisions/architecture-tradeoffs.md:83-90 | However they interleave, held quantities and the shelf add up to the same sum, and neither committed nor uncommitted stock is ever negative |
| Interleaving.NoDeadlock | internal/venue/repository/orders.go:21-55 | While nobody holds an item row above one it still wants, some unfinished transaction can run its next statement |
| Interleaving.DecisionsNeverDeadlock | internal/venue/repository/orders.go:21-55 | In every reachable state without cancellations some unfinished transaction can run |
| Interleaving.DeadlockNeedsCancellation | internal/venue/repository/orders.go:251-255 | In a deadlock some cancellation holds an item row above one it waits for |
| Interleaving.TwoCommonRows | internal/venue/repository/orders.go:54-55 | In a database with exactly two transactions a deadlock needs two common item rows; Deadlocks says exactly when calls may deadlock, for any number of them |
| Interleaving.ChainEnds | internal/venue/repository/orders.go:54-55 | Along a chain of waiting transactions the awaited item ids strictly grow, so the chain ends at one that can run |
| SerialRuns.RunsAlone | internal/venue/repository/orders.go:18-338 | A transaction whose others have all ended always completes, with the effect and the reply of one uninterrupted call |
| SerialRuns.SerialIsRun | internal/venue/repository/orders.go:18-338 | The converse of serializability: whatever calls do one after another, some run of interleaved transactions does |
| Cycles.CycleDeadlocks | internal/venue/repository/orders.go:251-255 | Every cycle of calls in which each can hold an item row that the one before it wants next has a run into a deadlock |
| Deadlocks.DeadlocksExactlyInCycles | internal/venue/repository/orders.go:54-55 | For any calls on any database at rest: some run of them, each made any number of times and aborted at will, ends in a deadlock if and only if, after some of them performed one after another, there is such a cycle |
| Deadlocks.KnownOrdersDeadlock | internal/venue/repository/orders.go:251-255 | When no call cancels an order that another one creates, the calls may deadlock if and only if there is such a cycle before any of them starts |
| Deadlocks.PairDeadlocks | internal/venue/repository/orders.go:251-255 | A cancellation and another call of either kind may deadlock if and only if they want two common item rows |
| Deadlocks.TwoCallsDeadlock | internal/venue/repository/orders.go:251-255 | A decision and a cancellation may deadlock if and only if two different items with finite stock are both in the command and on the stored order |
| Deadlocks.ThreeMayDeadlock | internal/venue/repository/orders.go:251-255 | Three calls may deadlock although any two of them have one common row and never do, so for more than two calls the cycle is the condition |
| Deadlocks.CancellationMayDeadlock | internal/venue/repository/orders.go:251-255 | A concrete database on which a decision and a cancellation over the same two items may deadlock |
| Deadlocks.DeadlockWaitsInCycle | internal/venue/repository/orders.go:18-338 | In every deadlocked state distinct transactions wait around a cycle, each for a row that the next one holds |
| Deadlocks.RunFollows | internal/venue/repository/orders.go:18-338 | No run changes settings, which rows have finite stock, or the lines of a stored order, and a stored order that cannot be cancelled never becomes cancellable |
| Locking.SameVerdict | internal/venue/repository/orders.go:81-109 | The verdict depends on the requested rows only |
| Amounts.GuardIsExact | internal/platform/repository/orders.go:95 | Comparing a quantity with the quotient is the same as comparing the product with int64 |
| Amounts.AddLine | internal/venue/repository/orders.go:96-103 | The guarded addition is exact and fails exactly when the sum leaves int64 |
| Money.ServeAnswers | internal/venue/repository/orders.go:96-103 | For a command whose total fits, the overflow guards never fire, and an acceptance carries exactly the total |
| Money.StepKeepsPriced | internal/platform/repository/orders.go:151-155 | Every step keeps command, platform amount and accepted amount equal |
| Money.RequestsAreAnswered | internal/venue/service/service.go:32-51 | For any order the platform created, the venue always answers, and accepts exactly the stored amount: its validation and overflow guards never refuse |
| Money.AmountCheckHolds | internal/platform/integration/venueclient/client.go:89 | Every acceptance that is ever sent back passes the amount check of the client |
| Checkout.SameHash | internal/platform/service/orders.go:85-95 | Two valid requests have equal canonical forms if and only if their items are permutations of each other and everything else is equal |
| Checkout.CanonicalFormIsDetermined | internal/platform/service/orders.go:88 | With unique ids there is one sorted arrangement only |
| Checkout.AnySortIsCanonical | internal/platform/service/orders.go:87-88 | Whatever order an unstable sort leaves the items in, the canonical form is the same |
| Checkout.PriceRules | internal/platform/repository/orders.go:35-107 | The checks of a new checkout in menu columns and in their order: each error exactly when its check is the first to fail, otherwise lines, totals and amount at the prices of the active, available rows |
| Checkout.EveryItemFound | internal/platform/repository/orders.go:87-89 | Comparing two lengths is enough to know that every requested id has its row |
| Checkout.PlacedCommandIsValid | internal/platform/repository/orders.go:151-155 | The command of a placed order passes the venue validation, and its total is the stored amount |
| Checkout.AddPurchase | internal/platform/repository/orders.go:20-33 | An insert after a failed lookup keeps at most one order per customer and key |
| Validation.ValidateCheckout | internal/platform/service/orders.go:63-83 | The loop with its map of seen ids accepts exactly the valid requests |
| Validation.ValidateCommand | internal/venue/service/service.go:32-48 | The loop with its guard and map of seen ids accepts exactly the valid commands |
| Validation.ValidateSnapshot | internal/platform/service/service.go:146-175 | The nested loops accept exactly the valid snapshots, with item ids unique over all categories |
| Catalog.ReplaceKeepsInv | internal/platform/repository/partner.go:26-86 | A replacement keeps the rows equal to the snapshot accepted at the stored version; the version never goes back, and the same version leaves the tables alone |
| MenuStore.Repository.ReplaceMenu | internal/platform/repository/partner.go:15-88 | Stale if and only if older than the stored version, conflict if and only if equal with another snapshot, repeats ignored, none of them with a write; otherwise the active rows are exactly the snapshot in its order, known external ids keep their row ids, and unlisted rows are only switched off |
| MenuStore.Repository.WriteSnapshot | internal/platform/repository/partner.go:45-77 | After the nested upsert loops the rows show the snapshot and nothing else is active |
| MenuStore.Repository.GetMenu | internal/platform/repository/catalog.go:78-147 | The append loops over both row sets return the assembled menu, and each of its errors exactly when declared |
| MenuStore.RoundTrip | internal/platform/repository/catalog.go:95-146 | Whatever rows in whatever ties the two queries return, the menu read back is the accepted snapshot in its own order, and an item of an inactive category is never met |
| MenuStore.SortedOnce | internal/platform/repository/catalog.go:98 | There is only one strictly sorted arrangement of the same rows |
| MenuStore.JoinFollowsSnapshot | internal/platform/repository/catalog.go:117-122 | The join of active items with active categories gives each category exactly its own items |
| System.EventKeepsInv | internal/platform/repository/orders.go:17-165 | Every event of the whole system, with any number of orders, menus and a moving clock, keeps the global invariant |
| Runs.RunKeepsInv | internal/platform/repository/outbox.go:16-168 | The global invariant holds in every reachable state, and orders, lines, amounts and histories are never lost or rewritten |
| Runs.EveryRunAgrees | internal/platform/repository/events.go:15-86 | In every reachable state, for every order: lagging replay, deliveries behind and at most one event ahead of the delivered prefix, and agreement at quiescence if and only if the confirmation did not expire |
| Runs.EveryRequestIsAnswered | internal/venue/service/service.go:32-51 | In every reachable state the venue answers every confirmation request ever sent, whatever its shop looks like, and accepts only the amount that checkout stored |
| Runs.AmountAlwaysMatches | internal/platform/integration/venueclient/client.go:89 | In every reachable state every acceptance on its way back passes the amount check of the client; only another currency can fail it |
| Runs.NoOrphanAfterCancellation | internal/platform/repository/outbox.go:106-110 | Over every continuation a cancelled order holds no stock at the venue, despite late and duplicated requests |
| Runs.TerminalForEver | docs/decisions/order-state-machine.md:34-36 | Over every continuation a terminal status and its history stay, and a refused cancellation stays refused |
| Runs.DecisionIsStable | internal/venue/repository/orders.go:24-28 | A repeated order command returns the first decision after any continuation, whatever happened to menu and stock |
| Runs.CancellationIsStable | internal/venue/repository/orders.go:235-240 | A repeated cancel command returns the first answer after any continuation and changes neither order nor stock |
| Runs.HistoryIsLegal | docs/decisions/order-state-machine.md:20-32 | In every reachable state every history walks along allowed edges from pending to the current status; preparing is never followed by cancelled |
| Runs.CheckoutIsRecorded | internal/platform/repository/orders.go:109-162 | A checkout accepted for the first time adds exactly its order, with its lines charged at menu prices and one confirmation job; any other checkout changes nothing |
| Runs.AvailabilityDecides | internal/platform/repository/partner.go:90-99 | Over every run until the availability is set again, new checkouts are refused as closed if and only if the venue was closed |
| Runs.RepeatedCheckout | internal/platform/repository/orders.go:20-33 | Over every continuation a repeated checkout returns the first order with unchanged lines and amount and changes nothing, also after the menu changed or the venue closed; another request under the key is refused |
| Runs.StockIsConserved | internal/venue/repository/orders.go:110-115 | Over every run of decide, cancel and move, shelf plus held quantities of an item stay the same, and the shelf is never negative |
| Runs.NothingOversold | internal/venue/repository/orders.go:91-115 | From the start: the shelf plus what unfinished and completed orders hold is the initial stock |
| Runs.MenuOverRun | internal/platform/repository/partner.go:26-36 | Over every run versions never go back, one version is one menu, and known external ids keep their row ids |
| Runs.NewerMenuIsShown | internal/platform/repository/partner.go:26-79 | A valid snapshot newer than the stored one is accepted, and whatever rows the two queries return afterwards the menu reads back as that snapshot |
| Runs.OneVersionOneMenu | internal/platform/repository/catalog.go:68-147 | In every reachable state the menu reads back as the snapshot accepted at the stored version, and two readers of one version see the same menu |
| Limiter.FixedWindowLimiter.Allow | internal/platform/transport/http/handler.go:59-71 | One call updates window and count as declared and says whether it is admitted |
| Limiter.StartsAreApart | internal/platform/transport/http/handler.go:62-65 | Over any history of non-decreasing times two windows start at least one second apart |
| Limiter.WindowsAreFull | internal/platform/transport/http/handler.go:62-70 | A window admits at most `limit` calls, and a call is refused only when its window is used up |
| Limiter.FewerThanTwice | internal/platform/transport/http/handler.go:59-71 | Every half-open second admits at most `2 * limit - 1` calls |
| Limiter.BoundIsReached | internal/platform/transport/http/handler.go:59-71 | For every limit there is a history that reaches that bound, so it is exact |

## Left out

- HTTP handlers, DTO mapping, middleware, CORS, configuration, wiring, shutdown, metrics and logging.
- Bearer tokens, tracking tokens and the access check of the order endpoints.
- Text lengths, identifier and phone formats, trimming of input, and the fields of the delivery address; delivery
  details are one opaque value.
- JSON, hashing and id generation; see the assumptions. A decoding or connection error is an aborted transaction.
- List and read endpoints other than the menu, the venue's listing pages, and the venue's synchronisation client.
- Liveness: nothing says that a job is ever claimed, or that a callback is ever delivered. A callback that is
  refused for ever is retried for ever.
- The endless poll loops around one worker round, and the pause between empty rounds.
- The in-place sort of checkoutHash is library code: only "some sorted arrangement of the same items" is used.
- canonicalSnapshot copies every field of a snapshot in order, so the canonical form is the snapshot itself.
- The order in which due jobs are served; a claim may take any candidate.
- Several venues in one platform database; the check that an order belongs to the calling venue is modelled.
- Timestamps, `last_error` of the venue's outbox and the reasons stored in the history.
- Interleaving.RunIsSerial: the settings row and the menu versions do not change during a run, since no transaction of
  the repository writes them (they are seeded by migrations). The advisory lock excludes exactly the same order; lock
  keys of different orders that collide would only exclude more.
- Workers.ProcessJob: no other transaction runs between the claim and the end of the round; Protocol models the two as
  separate steps with anything in between.
- Workers.ProcessCallback: no other transaction runs between the claim and the end of the round; Protocol models the
  two as separate steps with anything in between.
- Validation.ValidateCheckout: text lengths, identifier and phone formats and the length of the key are not checked.
- Validation.ValidateCommand: text lengths, identifier formats and the length of the key are not checked.
- Validation.ValidateSnapshot: text lengths and the alphabet of currency codes are not checked.
- Money.RequestsAreAnswered: the venue's validation is modelled without text lengths and identifier formats.
- Worker.BackoffBounds: jitter and its product are real numbers, so floating-point rounding is not modelled.
- Limiter.StartsAreApart: call times are positive and do not decrease; the mutex makes calls atomic, but two callers
  may enter it in another order than they read the clock.
- Limiter.FewerThanTwice: `limit` is at least one, which the handler's constructor ensures.
- Menu names, descriptions and currencies are carried as values; only their equality matters.
- The width of integers, except for the int64 money guards: counters, versions and stock are unbounded.
