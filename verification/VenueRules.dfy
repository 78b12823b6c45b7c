/** What the venue's transactions do to menu columns and to the rows of one order, case by case: nothing here is
    stated through the functions that the transactions are built from. */
module VenueRules {
  import opened Types
  import V = Venue
  import Stock

  // ---------- callbacks ----------

  /** The row is open, due, unlocked or its lease is over, and every earlier row of the order is delivered. */
  predicate Due(rows: seq<V.CallbackRow>, k: nat, now: int)
    requires k < |rows|
  {
    && rows[k].processedAt.None? && rows[k].availableAt <= now
    && (rows[k].lockedUntil.Some? ==> rows[k].lockedUntil.value < now)
    && forall j :: 0 <= j < |rows| && rows[j].event.sequence < rows[k].event.sequence ==> rows[j].processedAt.Some?
  }

  /** A new row of the callback queue: due at once, never tried. */
  function Issued(id: Id, sequence: int, kind: EventKind, now: int): V.CallbackRow {
    V.CallbackRow(OrderEvent(id, sequence, kind), 0, now, None, None, None)
  }

  // ---------- cancellations and staff moves ----------

  /** A cancel command: unknown orders are reported, a saved answer is repeated, a move under way is answered with
      the status it has reached, and an accepted order is cancelled with every finite item given back. */
  lemma CancellationRules(menu: V.Menu, existing: Option<V.Order>, eventId: Id, now: int)
    requires existing.Some? ==> UniqueItems(existing.value.lines)
    ensures var answer := V.Cancel(menu, existing, eventId, now);
      && (existing.None? ==> answer == V.CancelAnswer(menu, None, Rollback(V.NotFound)))
      && (existing.Some? && existing.value.cancelDecision.Some? ==>
            answer == V.CancelAnswer(menu, existing, Commit(existing.value.cancelDecision.value)))
      && (existing.Some? && existing.value.cancelDecision.None? && existing.value.status != Accepted ==>
            var refused := CancelRefused(existing.value.status);
            answer == V.CancelAnswer(menu, Some(existing.value.(cancelDecision := Some(refused))), Commit(refused)))
      && (existing.Some? && existing.value.cancelDecision.None? && existing.value.status == Accepted ==>
            var v := existing.value;
            && answer.reply == Commit(CancelConfirmed)
            && answer.order == Some(V.Order(v.id, v.lines, v.decision, Cancelled, v.nextSequence + 1,
                 Some(CancelConfirmed), v.callbacks + [Issued(eventId, v.nextSequence, OrderCancelled, now)]))
            && Stock.SameItems(menu, answer.menu)
            && forall item :: Stock.Finite(menu, item) ==>
                 answer.menu[item].stock.value == menu[item].stock.value + Stock.Demand(v.lines, item))
  {
    if existing.Some? {
      forall item ensures V.Joined(existing.value.lines, item) == Stock.Demand(existing.value.lines, item) {
        Stock.JoinedIsDemand(existing.value.lines, item);
      }
    }
  }

  /** The staff's moves: from, to, and the event that is issued. */
  const MOVES: map<V.Move, (Status, Status, EventKind)> := map[
    V.StartPreparing := (Accepted, Preparing, OrderPreparing),
    V.MarkReady := (Preparing, Ready, OrderReady),
    V.Complete := (Ready, Completed, OrderCompleted)]

  /** A repeated move answers the unchanged order, any other move out of turn is refused, and a move in turn issues
      the next event. */
  lemma MoveRules(v: V.Order, move: V.Move, eventId: Id, now: int)
    ensures move in MOVES
    ensures var t, (from, target, kind) := V.Transition(v, move, eventId, now), MOVES[move];
      && (v.status == target ==> t == Commit(v))
      && (t == Rollback(V.InvalidTransition) <==> v.status != target && v.status != from)
      && (v.status == from ==>
            t == Commit(v.(status := target, nextSequence := v.nextSequence + 1,
                 callbacks := v.callbacks + [Issued(eventId, v.nextSequence, kind, now)])))
  {
  }

  // ---------- decisions ----------

  /** The menu has no such item, has it switched off, or has too few. */
  predicate Lacks(menu: V.Menu, line: Line) {
    || line.item !in menu || !menu[line.item].available
    || (menu[line.item].stock.Some? && menu[line.item].stock.value < line.quantity)
  }

  /** The item has another price by now, or not the currency of an earlier line that could be served. */
  ghost predicate Differs(menu: V.Menu, lines: seq<Line>, i: nat)
    requires i < |lines|
  {
    && lines[i].item in menu
    && (|| menu[lines[i].item].price != lines[i].price
        || exists j ::
             0 <= j < i && !Lacks(menu, lines[j]) && menu[lines[j].item].currency != menu[lines[i].item].currency)
  }

  /** Every line can be served as ordered, all in one currency. */
  ghost predicate ServesAll(menu: V.Menu, lines: seq<Line>) {
    forall i :: 0 <= i < |lines| ==>
      && lines[0].item in menu && lines[i].item in menu
      && menu[lines[i].item].available
      && menu[lines[i].item].price == lines[i].price
      && menu[lines[i].item].currency == menu[lines[0].item].currency
      && (menu[lines[i].item].stock.Some? ==> menu[lines[i].item].stock.value >= lines[i].quantity)
  }

  /** The items of exactly the lines that the menu lacks, in command order. */
  ghost predicate ListsLacking(menu: V.Menu, lines: seq<Line>, items: seq<Id>) {
    exists at: seq<nat> ::
      && |at| == |items| && (forall j, k :: 0 <= j < k < |at| ==> at[j] < at[k])
      && (forall k :: 0 <= k < |at| ==> at[k] < |lines| && Lacks(menu, lines[at[k]]) && items[k] == lines[at[k]].item)
      && (forall i: nat :: i < |lines| && Lacks(menu, lines[i]) ==> i in at)
  }

  /** The answer to a new command whose total fits: an acceptance exactly when the venue is open, the version is the
      newest and every line can be served as ordered; otherwise a refusal with its reason. */
  ghost predicate AnswersNew(shop: V.Shop, command: OrderCommand, newId: Id, reply: Tx<Decision, V.Error>) {
    var menu, lines := shop.menu, command.lines;
    && reply.Commit?
    && (reply.state.Accept? <==> shop.accepting && command.menuVersion == shop.version && ServesAll(menu, lines))
    && (reply.state.Accept? ==>
          && |lines| > 0 && lines[0].item in menu
          && reply.state == Accept(newId, Total(lines), menu[lines[0].item].currency))
    && (reply.state.Reject? ==> reply.state.menuVersion == shop.version)
    && (reply.state == Reject(VenueClosed, shop.version, []) <==> !shop.accepting)
    && (reply.state == Reject(MenuChanged, shop.version, []) <==>
          && shop.accepting
          && (command.menuVersion != shop.version || exists i :: 0 <= i < |lines| && Differs(menu, lines, i)))
    && (reply.state.Reject? && reply.state.unavailable != [] ==> reply.state.reason == ItemsUnavailable)
    && (reply.state.Reject? && reply.state.reason == ItemsUnavailable ==>
          ListsLacking(menu, lines, reply.state.unavailable))
  }
}
