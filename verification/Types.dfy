/** Values that both services exchange or store. */
module Types {
  /** UUIDs and external identifiers: opaque, only compared and (for row locks and sorting) ordered. */
  type Id = nat

  /** `char(3)` currency codes: never the empty string. */
  type Currency = s: string | |s| == 3 witness "RUB"

  const MAX_INT64: int := 0x7fff_ffff_ffff_ffff

  datatype Option<+T> = None | Some(value: T)

  /** The outcome of one database transaction: committed with a new state, or rolled back. */
  datatype Tx<+S, +E> = Commit(state: S) | Rollback(error: E)

  /** Both services spell their order statuses with the same strings. */
  datatype Status =
    | Pending | Accepted | Preparing | Ready | Completed | Rejected | Expired | Cancelled

  datatype EventKind = OrderPreparing | OrderReady | OrderCompleted | OrderCancelled

  datatype OrderEvent = OrderEvent(id: Id, sequence: int, kind: EventKind)

  /** One line of the order command that the platform sends to the venue. */
  datatype Line = Line(item: Id, quantity: int, price: int)

  datatype OrderCommand = OrderCommand(order: Id, menuVersion: int, lines: seq<Line>)

  datatype RejectReason = VenueClosed | MenuChanged | ItemsUnavailable

  datatype Decision =
    | Accept(externalId: Id, amount: int, currency: Currency)
    | Reject(reason: RejectReason, menuVersion: int, unavailable: seq<Id>)

  datatype CancelDecision = CancelConfirmed | CancelRefused(current: Status)

  ghost predicate UniqueItems(lines: seq<Line>) {
    forall i, j :: 0 <= i < j < |lines| ==> lines[i].item != lines[j].item
  }

  /** The mathematical price of all lines, in minor units. */
  function Total(lines: seq<Line>): int {
    if lines == [] then 0
    else Total(lines[..|lines| - 1]) + lines[|lines| - 1].price * lines[|lines| - 1].quantity
  }
}
