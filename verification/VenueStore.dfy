/** The venue's repository over its tables. Rows of an order are addressed by `platform_order_id`, the
    unique key that commands carry. A method that returns an error has written nothing. */
module VenueStore {
  import opened Types
  import opened V = Venue
  import opened Amounts
  import Money
  import Stock
  import opened VenueRules

  // ---------- the scan inside DecideOrder ----------

  lemma PrefixStep(menu: Menu, lines: seq<Line>, i: nat)
    requires i < |lines|
    ensures Offered(menu, lines[i]) ==>
      && OfferedLines(menu, lines[..i + 1]) == OfferedLines(menu, lines[..i]) + [lines[i]]
      && Shortages(menu, lines[..i + 1]) == Shortages(menu, lines[..i])
    ensures !Offered(menu, lines[i]) ==>
      && OfferedLines(menu, lines[..i + 1]) == OfferedLines(menu, lines[..i])
      && Shortages(menu, lines[..i + 1]) == Shortages(menu, lines[..i]) + [lines[i].item]
  {
    assert lines[..i + 1][..i] == lines[..i];
  }

  lemma {:induction false} OfferedGrows(menu: Menu, lines: seq<Line>, i: nat, k: nat)
    requires i <= k <= |lines|
    requires forall j :: 0 <= j < |lines| ==> lines[j].price >= 0 && lines[j].quantity >= 0
    ensures Total(OfferedLines(menu, lines[..i])) <= Total(OfferedLines(menu, lines[..k]))
    decreases k
  {
    if i < k {
      OfferedGrows(menu, lines, i, k - 1);
      PrefixStep(menu, lines, k - 1);
      var before := OfferedLines(menu, lines[..k - 1]);
      TotalOfAppended(before, lines[k - 1]);
      Monotone(lines[k - 1].price, 0, lines[k - 1].quantity);
    }
  }

  lemma OverflowIsFinal(menu: Menu, lines: seq<Line>, i: nat)
    requires i < |lines|
    requires forall j :: 0 <= j < |lines| ==> lines[j].price >= 0 && lines[j].quantity >= 0
    requires forall j :: 0 <= j <= i ==> !Mismatch(menu, lines, j)
    requires Total(OfferedLines(menu, lines[..i + 1])) > MAX_INT64
    ensures Judge(menu, lines) == Overflow
  {
    forall k | 0 <= k < |lines| && Mismatch(menu, lines, k)
      ensures Total(OfferedLines(menu, lines[..k])) > MAX_INT64
    {
      OfferedGrows(menu, lines, i + 1, k);
    }
    OfferedGrows(menu, lines, i + 1, |lines|);
    assert lines[..|lines|] == lines;
  }

  lemma MismatchIsFinal(menu: Menu, lines: seq<Line>, i: nat)
    requires i < |lines| && Mismatch(menu, lines, i) && Total(OfferedLines(menu, lines[..i])) <= MAX_INT64
    ensures Judge(menu, lines) == Changed
  {
  }

  lemma LastJudgement(menu: Menu, lines: seq<Line>)
    requires |lines| > 0 && forall j :: 0 <= j < |lines| ==> !Mismatch(menu, lines, j)
    requires Total(OfferedLines(menu, lines)) <= MAX_INT64
    ensures Shortages(menu, lines) != [] ==> Judge(menu, lines) == Short(Shortages(menu, lines))
    ensures Shortages(menu, lines) == [] ==>
      && Offered(menu, lines[0])
      && Judge(menu, lines) == Served(Total(OfferedLines(menu, lines)), menu[lines[0].item].currency)
  {
    hide OfferedLines, Shortages, Mismatch, Total;
    if Shortages(menu, lines) == [] {
      NoShortage(menu, lines);
    }
  }

  /** The currency of the offered lines seen so far; the empty string before the first. */
  ghost predicate SoleCurrency(menu: Menu, lines: seq<Line>, currency: string) {
    && (forall j :: 0 <= j < |lines| && Offered(menu, lines[j]) ==> currency == menu[lines[j].item].currency)
    && (currency != "" ==>
         exists j :: 0 <= j < |lines| && Offered(menu, lines[j]) && currency == menu[lines[j].item].currency)
  }

  lemma ComparesWithEarlier(menu: Menu, lines: seq<Line>, i: nat, currency: string)
    requires i < |lines| && SoleCurrency(menu, lines[..i], currency)
    ensures Mismatch(menu, lines, i) <==>
      && lines[i].item in menu
      && (menu[lines[i].item].price != lines[i].price || (currency != "" && currency != menu[lines[i].item].currency))
  {
  }

  lemma CurrencyOfOffered(menu: Menu, lines: seq<Line>, i: nat, currency: string)
    requires i < |lines| && SoleCurrency(menu, lines[..i], currency) && !Mismatch(menu, lines, i)
    ensures SoleCurrency(menu, lines[..i + 1],
              if Offered(menu, lines[i]) then menu[lines[i].item].currency else currency)
  {
  }

  method Scan(menu: Menu, lines: seq<Line>) returns (verdict: Verdict, managed: seq<Line>)
    requires |lines| > 0
    requires forall i :: 0 <= i < |lines| ==> lines[i].price >= 0 && lines[i].quantity >= 0
    ensures verdict == Judge(menu, lines)
    ensures verdict.Served? ==> managed == lines
  {
    hide Judge, Mismatch, SoleCurrency, OfferedLines, Shortages, Total;
    var unavailable: seq<Id> := [];
    var total := 0;
    var currency := "";
    managed := [];
    NothingYet(menu, lines);
    for index := 0 to |lines|
      invariant total == Total(OfferedLines(menu, lines[..index])) && 0 <= total <= MAX_INT64
      invariant unavailable == Shortages(menu, lines[..index])
      invariant forall j :: 0 <= j < index ==> !Mismatch(menu, lines, j)
      invariant SoleCurrency(menu, lines[..index], currency)
      invariant unavailable == [] ==> managed == lines[..index]
    {
      var requested := lines[index];
      PrefixStep(menu, lines, index);
      ComparesWithEarlier(menu, lines, index, currency);
      if requested.item in menu
        && (|| menu[requested.item].price != requested.price
            || (currency != "" && currency != menu[requested.item].currency))
      {
        MismatchIsFinal(menu, lines, index);
        return Changed, managed;
      }
      CurrencyOfOffered(menu, lines, index, currency);
      if !Offered(menu, requested) {
        unavailable := unavailable + [requested.item];
        continue;
      }
      var item := menu[requested.item];
      currency := item.currency;
      TotalOfAppended(OfferedLines(menu, lines[..index]), requested);
      var sum := AddLine(total, item.price, requested.quantity);
      if sum.None? {
        OverflowIsFinal(menu, lines, index);
        return Overflow, managed;
      }
      total := sum.value;
      managed := managed + [Line(requested.item, requested.quantity, item.price)];
    }
    assert lines[..|lines|] == lines;
    LastJudgement(menu, lines);
    if unavailable != [] {
      return Short(unavailable), managed;
    }
    FirstCurrency(menu, lines, currency);
    verdict := Served(total, currency);
  }

  lemma NothingYet(menu: Menu, lines: seq<Line>)
    ensures SoleCurrency(menu, lines[..0], "")
    ensures OfferedLines(menu, lines[..0]) == [] && Shortages(menu, lines[..0]) == [] && Total([]) == 0
  {
  }

  lemma FirstCurrency(menu: Menu, lines: seq<Line>, currency: string)
    requires |lines| > 0 && Offered(menu, lines[0]) && SoleCurrency(menu, lines, currency)
    ensures currency == menu[lines[0].item].currency
  {
  }

  // ---------- what the verdict means ----------

  predicate Increasing(at: seq<nat>) {
    forall j, k :: 0 <= j < k < |at| ==> at[j] < at[k]
  }

  /** `at` lists, in command order, the positions of exactly the lines that cannot be served. */
  ghost predicate ShortAt(menu: Menu, lines: seq<Line>, at: seq<nat>) {
    && Increasing(at)
    && (forall k :: 0 <= k < |at| ==> at[k] < |lines| && !Offered(menu, lines[at[k]]))
    && (forall i: nat :: i < |lines| && !Offered(menu, lines[i]) ==> i in at)
  }

  function ShortPositions(menu: Menu, lines: seq<Line>): seq<nat> {
    if lines == [] then []
    else
      var n := |lines| - 1;
      ShortPositions(menu, lines[..n]) + (if Offered(menu, lines[n]) then [] else [n])
  }

  lemma {:induction false} PositionsAreShort(menu: Menu, lines: seq<Line>)
    ensures var at := ShortPositions(menu, lines);
      Increasing(at) && forall k :: 0 <= k < |at| ==> at[k] < |lines| && !Offered(menu, lines[at[k]])
  {
    hide Offered;
    if lines != [] {
      var n := |lines| - 1;
      PositionsAreShort(menu, lines[..n]);
      var front, at := ShortPositions(menu, lines[..n]), ShortPositions(menu, lines);
      assert at == front + (if Offered(menu, lines[n]) then [] else [n]);
      hide ShortPositions;
      forall k | 0 <= k < |front| ensures front[k] < n && !Offered(menu, lines[front[k]]) {
        assert lines[..n][front[k]] == lines[front[k]];
      }
    }
  }

  lemma {:induction false} PositionsAreAll(menu: Menu, lines: seq<Line>, i: nat)
    requires i < |lines| && !Offered(menu, lines[i])
    ensures i in ShortPositions(menu, lines)
  {
    hide Offered;
    if i < |lines| - 1 {
      PositionsAreAll(menu, lines[..|lines| - 1], i);
    } else {
      var at := ShortPositions(menu, lines);
      assert at[|at| - 1] == i;
    }
  }

  lemma {:induction false} ShortagesAtPositions(menu: Menu, lines: seq<Line>)
    ensures var at := ShortPositions(menu, lines);
      && |Shortages(menu, lines)| == |at|
      && forall k :: 0 <= k < |at| ==> at[k] < |lines| && Shortages(menu, lines)[k] == lines[at[k]].item
  {
    hide Offered;
    if lines != [] {
      ShortagesAtPositions(menu, lines[..|lines| - 1]);
    }
  }

  /** When the total of the offered lines fits, the order is refused as changed exactly when some line no
      longer matches the menu, and served in full exactly when every line matches and can be served. */
  lemma VerdictMeaning(menu: Menu, lines: seq<Line>)
    requires |lines| > 0 && Total(OfferedLines(menu, lines)) <= MAX_INT64
    requires forall j :: 0 <= j < |lines| ==> lines[j].price >= 0 && lines[j].quantity >= 0
    ensures Judge(menu, lines).Changed? <==> exists i :: 0 <= i < |lines| && Mismatch(menu, lines, i)
    ensures Judge(menu, lines).Served? <==>
      forall i :: 0 <= i < |lines| ==> Offered(menu, lines[i]) && !Mismatch(menu, lines, i)
    ensures Judge(menu, lines).Served? ==> Judge(menu, lines).amount == Total(lines)
  {
    hide Mismatch, Total, OfferedLines, Shortages, ShortPositions, Offered;
    forall i | 0 <= i < |lines| ensures Total(OfferedLines(menu, lines[..i])) <= MAX_INT64 {
      OfferedGrows(menu, lines, i, |lines|);
      assert lines[..|lines|] == lines;
    }
    if Shortages(menu, lines) == [] {
      NoShortage(menu, lines);
    } else {
      PositionsAreShort(menu, lines);
      ShortagesAtPositions(menu, lines);
      assert !Offered(menu, lines[ShortPositions(menu, lines)[0]]);
    }
  }

  /** Otherwise it is refused with exactly the missing, switched off or short lines, in command order. */
  lemma ShortMeaning(menu: Menu, lines: seq<Line>)
    requires |lines| > 0 && Judge(menu, lines).Short?
    ensures exists at ::
      && ShortAt(menu, lines, at) && at != [] && |Judge(menu, lines).items| == |at|
      && forall k :: 0 <= k < |at| ==> Judge(menu, lines).items[k] == lines[at[k]].item
  {
    hide Mismatch, Offered;
    PositionsAreShort(menu, lines);
    ShortagesAtPositions(menu, lines);
    forall i: nat | i < |lines| && !Offered(menu, lines[i]) ensures i in ShortPositions(menu, lines) {
      PositionsAreAll(menu, lines, i);
    }
    assert ShortAt(menu, lines, ShortPositions(menu, lines));
  }

  // ---------- what a decision means, in menu columns ----------

  lemma OfferedMeansNotLacking(menu: Menu, line: Line)
    ensures Offered(menu, line) <==> !Lacks(menu, line)
  {
  }

  lemma MismatchMeansDiffering(menu: Menu, lines: seq<Line>, i: nat)
    requires i < |lines|
    ensures Mismatch(menu, lines, i) <==> Differs(menu, lines, i)
  {
    forall j | 0 <= j < i ensures Offered(menu, lines[j]) <==> !Lacks(menu, lines[j]) {
      OfferedMeansNotLacking(menu, lines[j]);
    }
    hide Offered, Lacks;
  }

  lemma ServesAllExactly(menu: Menu, lines: seq<Line>)
    requires |lines| > 0
    ensures ServesAll(menu, lines) <==>
      forall i :: 0 <= i < |lines| ==> !Lacks(menu, lines[i]) && !Differs(menu, lines, i)
  {
    if forall i :: 0 <= i < |lines| ==> !Lacks(menu, lines[i]) && !Differs(menu, lines, i) {
      forall i | 0 <= i < |lines| ensures menu[lines[i].item].currency == menu[lines[0].item].currency {
        assert !Lacks(menu, lines[0]) && !Differs(menu, lines, i);
      }
    }
  }

  lemma AsColumns(menu: Menu, lines: seq<Line>)
    ensures forall i :: 0 <= i < |lines| ==> (Offered(menu, lines[i]) <==> !Lacks(menu, lines[i]))
    ensures forall i :: 0 <= i < |lines| ==> (Mismatch(menu, lines, i) <==> Differs(menu, lines, i))
  {
    hide Offered, Lacks, Mismatch, Differs;
    forall i | 0 <= i < |lines|
      ensures Offered(menu, lines[i]) <==> !Lacks(menu, lines[i])
      ensures Mismatch(menu, lines, i) <==> Differs(menu, lines, i)
    {
      OfferedMeansNotLacking(menu, lines[i]);
      MismatchMeansDiffering(menu, lines, i);
    }
  }

  lemma ShortListsLacking(menu: Menu, lines: seq<Line>)
    requires |lines| > 0 && Judge(menu, lines).Short?
    ensures ListsLacking(menu, lines, Judge(menu, lines).items)
  {
    hide Judge, Offered, Lacks, Mismatch, Differs, ListsLacking, Increasing;
    ShortMeaning(menu, lines);
    AsColumns(menu, lines);
    var items := Judge(menu, lines).items;
    var at :| ShortAt(menu, lines, at) && at != [] && |items| == |at| &&
      forall k :: 0 <= k < |at| ==> items[k] == lines[at[k]].item;
    AtListsLacking(menu, lines, at, items);
  }

  lemma AtListsLacking(menu: Menu, lines: seq<Line>, at: seq<nat>, items: seq<Id>)
    requires forall i :: 0 <= i < |lines| ==> (Offered(menu, lines[i]) <==> !Lacks(menu, lines[i]))
    requires ShortAt(menu, lines, at) && |items| == |at|
    requires forall k :: 0 <= k < |at| ==> items[k] == lines[at[k]].item
    ensures ListsLacking(menu, lines, items)
  {
    hide Offered, Lacks;
  }

  /** The verdict in menu columns, when the total of the command fits. */
  lemma VerdictRules(menu: Menu, lines: seq<Line>)
    requires |lines| > 0 && Total(lines) <= MAX_INT64 && forall i :: 0 <= i < |lines| ==> ValidLine(lines[i])
    ensures var verdict := Judge(menu, lines);
      && (verdict.Changed? <==> exists i :: 0 <= i < |lines| && Differs(menu, lines, i))
      && (verdict.Served? <==> ServesAll(menu, lines))
      && (verdict.Served? ==>
            lines[0].item in menu && verdict == Served(Total(lines), menu[lines[0].item].currency))
      && (verdict.Short? ==> ListsLacking(menu, lines, verdict.items))
      && !verdict.Overflow?
  {
    hide Judge, Offered, Lacks, Mismatch, Differs, ServesAll, ListsLacking, Total, OfferedLines, ValidLine;
    Money.OfferedCostsLess(menu, lines);
    Money.JudgeNeverOverflows(menu, lines);
    LinesCostSomething(lines);
    VerdictMeaning(menu, lines);
    AsColumns(menu, lines);
    ServesAllExactly(menu, lines);
    if Judge(menu, lines).Short? {
      ShortListsLacking(menu, lines);
    } else if Judge(menu, lines).Served? {
      ServedCurrency(menu, lines);
    }
  }

  lemma LinesCostSomething(lines: seq<Line>)
    requires forall i :: 0 <= i < |lines| ==> ValidLine(lines[i])
    ensures forall i :: 0 <= i < |lines| ==> lines[i].price >= 0 && lines[i].quantity >= 0
  {
    forall i | 0 <= i < |lines| ensures lines[i].price >= 0 && lines[i].quantity >= 0 {
      assert ValidLine(lines[i]);
    }
  }

  lemma ServedCurrency(menu: Menu, lines: seq<Line>)
    requires |lines| > 0 && Judge(menu, lines).Served?
    ensures lines[0].item in menu && Judge(menu, lines).currency == menu[lines[0].item].currency
  {
    NoShortage(menu, lines);
  }

  lemma NewDecision(shop: V.Shop, command: OrderCommand, newId: Id)
    requires ValidCommand(command) && Total(command.lines) <= MAX_INT64
    ensures Decide(shop, None, command, newId).reply.Commit?
    ensures AnswersNew(shop, command, newId, Decide(shop, None, command, newId).reply)
  {
    hide Judge, Reserve, ServesAll, Differs, ListsLacking, Total, ValidLine, UniqueItems;
    VerdictRules(shop.menu, command.lines);
  }

  lemma RefusalsListLacking(shop: V.Shop, command: OrderCommand, newId: Id)
    requires ValidCommand(command)
    ensures var reply := Decide(shop, None, command, newId).reply;
      reply.Commit? && reply.state.Reject? ==> reply.state.reason == ItemsUnavailable || reply.state.unavailable == []
  {
    hide Judge, Reserve, ValidLine, UniqueItems;
  }

  /** The decision on a new command whose total fits: an acceptance exactly when the venue is open, the version is the
      newest, and every line can be served as ordered; otherwise the stored refusal with its reason. */
  lemma DecisionRules(shop: V.Shop, command: OrderCommand, newId: Id)
    requires ValidCommand(command) && Total(command.lines) <= MAX_INT64
    ensures var answer, menu, lines := Serve(shop, None, command, newId), shop.menu, command.lines;
      && AnswersNew(shop, command, newId, answer.reply)
      && var decision := answer.reply.state;
         && (decision.Accept? ==>
               && answer.order == Some(V.Order(newId, lines, decision, Accepted, 1, None, []))
               && answer.shop == shop.(menu := answer.shop.menu) && Stock.SameItems(menu, answer.shop.menu)
               && forall i :: Stock.Finite(menu, i) ==>
                    answer.shop.menu[i].stock.value == menu[i].stock.value - Stock.Demand(lines, i))
         && (decision.Reject? ==>
               && answer.order == Some(V.Order(newId, [], decision, Rejected, 1, None, [])) && answer.shop == shop
               && (decision.reason == ItemsUnavailable || decision.unavailable == []))
  {
    hide Judge, Reserve, AnswersNew, Total, ValidLine, UniqueItems;
    NewDecision(shop, command, newId);
    RefusalsListLacking(shop, command, newId);
    Stock.ReserveTakesDemand(shop.menu, command.lines);
  }

  /** Beyond int64: a command that could otherwise be served is answered with the overflow error and not stored. */
  lemma OverflowRules(shop: V.Shop, command: OrderCommand, newId: Id)
    requires ValidCommand(command) && Total(command.lines) > MAX_INT64
    requires shop.accepting && command.menuVersion == shop.version && ServesAll(shop.menu, command.lines)
    ensures Serve(shop, None, command, newId) == V.Answer(shop, None, Rollback(AmountOverflow))
  {
    var menu, lines := shop.menu, command.lines;
    ServesAllExactly(menu, lines);
    AsColumns(menu, lines);
    hide Offered, Mismatch, ServesAll, Lacks, Differs, ValidLine;
    AllOffered(menu, lines);
  }

  lemma {:induction false} AllOffered(menu: Menu, lines: seq<Line>)
    requires forall i :: 0 <= i < |lines| ==> Offered(menu, lines[i])
    ensures OfferedLines(menu, lines) == lines
  {
    hide Offered;
    if lines != [] {
      AllOffered(menu, lines[..|lines| - 1]);
    }
  }

  lemma LinesNotNegative(command: OrderCommand)
    requires ValidCommand(command)
    ensures forall i :: 0 <= i < |command.lines| ==> command.lines[i].price >= 0 && command.lines[i].quantity >= 0
  {
  }

  // ---------- the repository ----------

  /** The columns of `venue_orders`. */
  datatype Row = Row(
    id: Id, decision: Decision, status: Status, nextSequence: int, cancelDecision: Option<CancelDecision>)

  /** The rows of all orders, from the three tables. */
  function Join(orders: map<Id, Row>, items: map<Id, seq<Line>>, outbox: map<Id, seq<CallbackRow>>): map<Id, V.Order>
    requires orders.Keys == items.Keys == outbox.Keys
  {
    map o | o in orders ::
      V.Order(orders[o].id, items[o], orders[o].decision, orders[o].status,
              orders[o].nextSequence, orders[o].cancelDecision, outbox[o])
  }

  function RowOf(v: V.Order): Row {
    Row(v.id, v.decision, v.status, v.nextSequence, v.cancelDecision)
  }

  lemma JoinUpdated(orders: map<Id, Row>, items: map<Id, seq<Line>>, outbox: map<Id, seq<CallbackRow>>,
                    o: Id, v: V.Order)
    requires orders.Keys == items.Keys == outbox.Keys
    ensures orders[o := RowOf(v)].Keys == items[o := v.lines].Keys == outbox[o := v.callbacks].Keys
    ensures Join(orders[o := RowOf(v)], items[o := v.lines], outbox[o := v.callbacks]) ==
      Join(orders, items, outbox)[o := v]
  {
  }

  class Repository {
    var menu: Menu
    var version: int
    var accepting: bool
    var orders: map<Id, Row>
    var items: map<Id, seq<Line>>
    var outbox: map<Id, seq<CallbackRow>>

    ghost predicate Valid()
      reads this
    {
      orders.Keys == items.Keys == outbox.Keys
    }

    function Shop(): V.Shop
      reads this
    {
      V.Shop(menu, version, accepting)
    }

    /** The rows of one order from the three tables. */
    function Load(o: Id): V.Order
      requires Valid() && o in orders
      reads this
    {
      V.Order(orders[o].id, items[o], orders[o].decision, orders[o].status,
              orders[o].nextSequence, orders[o].cancelDecision, outbox[o])
    }

    function Orders(): map<Id, V.Order>
      requires Valid()
      reads this
    {
      Join(orders, items, outbox)
    }

    function Find(o: Id): Option<V.Order>
      requires Valid()
      reads this
    {
      if o in orders then Some(Load(o)) else None
    }

    constructor (menu: Menu, version: int, accepting: bool)
      ensures Valid() && Orders() == map[] && Shop() == V.Shop(menu, version, accepting)
    {
      this.menu, this.version, this.accepting := menu, version, accepting;
      orders, items, outbox := map[], map[], map[];
    }

    /** Inserts or updates the rows of one order in its three tables. */
    method WriteRows(o: Id, v: V.Order)
      requires Valid()
      modifies `orders, `items, `outbox
      ensures Valid() && Orders() == old(Orders())[o := v] && Find(o) == Some(v)
    {
      JoinUpdated(orders, items, outbox, o, v);
      hide Join;
      orders := orders[o := RowOf(v)];
      items := items[o := v.lines];
      outbox := outbox[o := v.callbacks];
    }

    lemma LoadsItself(o: Id)
      requires Valid() && o in orders
      ensures Orders()[o := Load(o)] == Orders()
    {
    }

    method InsertRejected(command: OrderCommand, newId: Id, decision: Decision)
      requires Valid() && command.order !in orders
      modifies `orders, `items, `outbox
      ensures Valid() && Orders() == old(Orders())[command.order := RejectedOrder(newId, decision)]
      ensures Find(command.order) == Some(RejectedOrder(newId, decision))
    {
      WriteRows(command.order, V.Order(newId, [], decision, Rejected, 1, None, []));
    }

    /** One UPDATE per line, on the rows that keep a finite stock. */
    method ReserveStock(lines: seq<Line>)
      modifies `menu
      ensures menu == Reserve(old(menu), lines)
    {
      for index := 0 to |lines|
        invariant menu == Reserve(old(menu), lines[..index])
      {
        var line := lines[index];
        assert lines[..index + 1][..index] == lines[..index];
        if line.item in menu && menu[line.item].stock.Some? {
          menu := menu[line.item := menu[line.item].(stock := Some(menu[line.item].stock.value - line.quantity))];
        }
      }
      assert lines[..|lines|] == lines;
    }

    method DecideOrder(command: OrderCommand, newId: Id) returns (reply: Tx<Decision, Error>)
      requires Valid() && ValidCommand(command)
      modifies this
      ensures Valid()
      ensures var answer := Decide(old(Shop()), old(Find(command.order)), command, newId);
        && reply == answer.reply && Shop() == answer.shop && Find(command.order) == answer.order
        && Orders() == if answer.order.Some? then old(Orders())[command.order := answer.order.value] else old(Orders())
      ensures old(command.order !in orders) && Total(command.lines) <= MAX_INT64 ==>
        AnswersNew(old(Shop()), command, newId, reply)
    {
      hide Judge, Reserve, ValidLine, UniqueItems, Join, AnswersNew, Total;
      if command.order !in orders && Total(command.lines) <= MAX_INT64 {
        NewDecision(Shop(), command, newId);
      }
      if command.order in orders {
        LoadsItself(command.order);
        return Commit(orders[command.order].decision);
      }
      if !accepting {
        var decision := Reject(VenueClosed, version, []);
        InsertRejected(command, newId, decision);
        return Commit(decision);
      }
      if command.menuVersion != version {
        var decision := Reject(MenuChanged, version, []);
        InsertRejected(command, newId, decision);
        return Commit(decision);
      }
      LinesNotNegative(command);
      var verdict, managed := Scan(menu, command.lines);
      match verdict {
        case Changed =>
          var decision := Reject(MenuChanged, version, []);
          InsertRejected(command, newId, decision);
          reply := Commit(decision);
        case Overflow =>
          reply := Rollback(AmountOverflow);
        case Short(unavailable) =>
          var decision := Reject(ItemsUnavailable, version, unavailable);
          InsertRejected(command, newId, decision);
          reply := Commit(decision);
        case Served(amount, currency) =>
          ReserveStock(command.lines);
          var decision := Accept(newId, amount, currency);
          WriteRows(command.order, V.Order(newId, managed, decision, Accepted, 1, None, []));
          reply := Commit(decision);
      }
    }

    method CancelOrder(o: Id, eventId: Id, now: int) returns (reply: Tx<CancelDecision, Error>)
      requires Valid()
      modifies this
      ensures Valid() && version == old(version) && accepting == old(accepting)
      ensures var answer := Cancel(old(menu), old(Find(o)), eventId, now);
        && reply == answer.reply && menu == answer.menu && Find(o) == answer.order
        && Orders() == if answer.order.Some? then old(Orders())[o := answer.order.value] else old(Orders())
    {
      hide Release, Join;
      if o !in orders {
        return Rollback(NotFound);
      }
      var tx := Load(o);
      LoadsItself(o);
      if tx.cancelDecision.Some? {
        return Commit(tx.cancelDecision.value);
      }
      if tx.status != Accepted {
        var refused := CancelRefused(tx.status);
        WriteRows(o, tx.(cancelDecision := Some(refused)));
        return Commit(refused);
      }
      menu := Release(menu, tx.lines);
      var event := OrderEvent(eventId, tx.nextSequence, OrderCancelled);
      tx := tx.(status := Cancelled, nextSequence := tx.nextSequence + 1, cancelDecision := Some(CancelConfirmed));
      tx := tx.(callbacks := tx.callbacks + [NewCallback(event, now)]);
      WriteRows(o, tx);
      reply := Commit(CancelConfirmed);
    }

    method TransitionOrder(o: Id, move: Move, eventId: Id, now: int) returns (reply: Tx<V.Order, Error>)
      requires Valid()
      modifies `orders, `items, `outbox
      ensures Valid()
      ensures old(o !in orders) ==> reply == Rollback(NotFound) && Orders() == old(Orders())
      ensures old(o in orders) ==>
        && reply == Transition(old(Load(o)), move, eventId, now)
        && Orders() == if reply.Commit? then old(Orders())[o := reply.state] else old(Orders())
    {
      if o !in orders {
        return Rollback(NotFound);
      }
      var tx := Load(o);
      LoadsItself(o);
      hide Join;
      if tx.status == move.Target() {
        return Commit(tx);
      }
      if tx.status != move.Expected() {
        return Rollback(InvalidTransition);
      }
      var event := OrderEvent(eventId, tx.nextSequence, move.Kind());
      tx := tx.(status := move.Target(), nextSequence := tx.nextSequence + 1);
      tx := tx.(callbacks := tx.callbacks + [NewCallback(event, now)]);
      WriteRows(o, tx);
      reply := Commit(tx);
    }

    // ---------- callbacks.go ----------

    /** The query locks one of its candidates; rows that other workers hold locked are skipped, so any
        candidate may be the one. */
    method ClaimCallback(token: Id, now: int, lease: int) returns (job: Option<(Id, CallbackClaim)>)
      requires Valid()
      modifies `outbox
      ensures Valid()
      ensures job.None? ==>
        && Orders() == old(Orders())
        && forall o, k: nat :: o in old(orders) ==> !CallbackClaimable(old(Load(o)), k, now)
      ensures job.None? ==> forall o, k: nat :: o in old(orders) && k < |old(outbox)[o]| ==>
        !VenueRules.Due(old(outbox)[o], k, now)
      ensures job.Some? ==>
        var (o, claim) := job.value;
        && o in old(orders) && claim.row < |old(outbox)[o]|
        && var rows, row := old(outbox)[o], old(outbox)[o][claim.row];
           && VenueRules.Due(rows, claim.row, now)
           && outbox == old(outbox)[o := rows[claim.row := CallbackRow(
                row.event, row.attempts + 1, row.availableAt, Some(now + lease), Some(token), None)]]
           && claim == CallbackClaim(claim.row, token, row.event, row.attempts + 1, now + lease)
      ensures job.Some? ==>
        && job.value.0 in old(orders) && CallbackClaimable(old(Load(job.value.0)), job.value.1.row, now)
        && job.value.1 == CallbackClaimOf(old(Load(job.value.0)), job.value.1.row, token, now, lease)
        && Orders() == old(Orders())[job.value.0 :=
             V.ClaimCallback(old(Load(job.value.0)), job.value.1.row, token, now, lease)]
    {
      if o, k :| o in orders && 0 <= k < |outbox[o]| && CallbackClaimable(Load(o), k, now) {
        var row := outbox[o][k];
        row := row.(lockedUntil := Some(now + lease), token := Some(token), attempts := row.attempts + 1);
        outbox := outbox[o := outbox[o][k := row]];
        job := Some((o, CallbackClaim(k, token, row.event, row.attempts, row.lockedUntil.value)));
      } else {
        job := None;
        forall o, k: nat | o in orders && k < |outbox[o]| ensures !VenueRules.Due(outbox[o], k, now) {
          assert !CallbackClaimable(Load(o), k, now);
        }
      }
    }

    method CompleteCallback(o: Id, k: nat, token: Id, now: int) returns (reply: Tx<V.Order, Error>)
      requires Valid()
      modifies `outbox
      ensures Valid()
      ensures old(o !in orders) ==> reply == Rollback(LeaseLost) && Orders() == old(Orders())
      ensures old(o in orders) ==>
        && reply == V.CompleteCallback(old(Load(o)), k, token, now)
        && Orders() == if reply.Commit? then old(Orders())[o := reply.state] else old(Orders())
    {
      if o !in orders || k >= |outbox[o]| || outbox[o][k].token != Some(token) || outbox[o][k].processedAt.Some? {
        return Rollback(LeaseLost);
      }
      var row := outbox[o][k].(processedAt := Some(now), lockedUntil := None, token := None);
      outbox := outbox[o := outbox[o][k := row]];
      reply := Commit(Load(o));
    }

    method RetryCallback(o: Id, k: nat, token: Id, availableAt: int) returns (reply: Tx<V.Order, Error>)
      requires Valid()
      modifies `outbox
      ensures Valid()
      ensures old(o !in orders) ==> reply == Rollback(LeaseLost) && Orders() == old(Orders())
      ensures old(o in orders) ==>
        && reply == V.RetryCallback(old(Load(o)), k, token, availableAt)
        && Orders() == if reply.Commit? then old(Orders())[o := reply.state] else old(Orders())
    {
      if o !in orders || k >= |outbox[o]| || outbox[o][k].token != Some(token) || outbox[o][k].processedAt.Some? {
        return Rollback(LeaseLost);
      }
      outbox := outbox[o := outbox[o][k := outbox[o][k].(availableAt := availableAt, lockedUntil := None,
           token := None)]];
      reply := Commit(Load(o));
    }
  }
}
