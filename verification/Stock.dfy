/** Reserved and released stock of one order, and of all orders together. */
module Stock {
  import opened Types
  import opened Protocol
  import P = Platform
  import V = Venue

  /** The quantity of an item over all lines. */
  function Demand(lines: seq<Line>, item: Id): int {
    if lines == [] then 0
    else
      var last := lines[|lines| - 1];
      Demand(lines[..|lines| - 1], item) + (if last.item == item then last.quantity else 0)
  }

  predicate Finite(menu: V.Menu, item: Id) {
    item in menu && menu[item].stock.Some?
  }

  /** Only the stock of finite items may differ. */
  ghost predicate SameItems(menu: V.Menu, other: V.Menu) {
    && other.Keys == menu.Keys
    && (forall i :: i in menu ==>
          && (menu[i].stock.Some? <==> other[i].stock.Some?)
          && other[i].(stock := menu[i].stock) == menu[i])
  }

  lemma {:induction false} ReserveTakesDemand(menu: V.Menu, lines: seq<Line>)
    ensures SameItems(menu, V.Reserve(menu, lines))
    ensures forall i :: Finite(menu, i) ==>
      V.Reserve(menu, lines)[i].stock.value == menu[i].stock.value - Demand(lines, i)
  {
    if lines != [] {
      ReserveTakesDemand(menu, lines[..|lines| - 1]);
    }
  }

  lemma {:induction false} DemandFromFront(lines: seq<Line>, item: Id)
    requires lines != []
    ensures Demand(lines, item) == (if lines[0].item == item then lines[0].quantity else 0) + Demand(lines[1..], item)
  {
    if |lines| > 1 {
      var front, last := lines[..|lines| - 1], lines[|lines| - 1];
      DemandFromFront(front, item);
      assert front[1..] == lines[1..][..|lines| - 2];
    }
  }

  lemma {:induction false} NoLineNoDemand(lines: seq<Line>, item: Id)
    requires forall i :: 0 <= i < |lines| ==> lines[i].item != item
    ensures Demand(lines, item) == 0
  {
    if lines != [] {
      NoLineNoDemand(lines[..|lines| - 1], item);
    }
  }

  /** With unique items the one joined line carries the whole demand. */
  lemma {:induction false} JoinedIsDemand(lines: seq<Line>, item: Id)
    requires UniqueItems(lines)
    ensures V.Joined(lines, item) == Demand(lines, item)
  {
    if lines != [] {
      DemandFromFront(lines, item);
      if lines[0].item == item {
        NoLineNoDemand(lines[1..], item);
      } else {
        JoinedIsDemand(lines[1..], item);
      }
    }
  }

  lemma {:induction false} DemandIsLine(lines: seq<Line>, k: nat)
    requires UniqueItems(lines) && k < |lines|
    ensures Demand(lines, lines[k].item) == lines[k].quantity
  {
    var front, last := lines[..|lines| - 1], lines[|lines| - 1];
    if k < |front| {
      DemandIsLine(front, k);
    } else {
      NoLineNoDemand(front, last.item);
    }
  }

  lemma {:induction false} DemandNotNegative(lines: seq<Line>, item: Id)
    requires forall i :: 0 <= i < |lines| ==> lines[i].quantity > 0
    ensures Demand(lines, item) >= 0
    ensures Demand(lines, item) == 0 <==> forall i :: 0 <= i < |lines| ==> lines[i].item != item
  {
    if lines != [] {
      DemandNotNegative(lines[..|lines| - 1], item);
      assert lines[|lines| - 1].quantity > 0;
    }
  }

  /** Two lines name this item. */
  ghost predicate Repeats(lines: seq<Line>, item: Id) {
    exists i, j :: 0 <= i < j < |lines| && lines[i].item == item && lines[j].item == item
  }

  /** The one joined line carries the whole demand exactly when no second line names the item. */
  lemma {:induction false} JoinedFallsShort(lines: seq<Line>, item: Id)
    requires forall i :: 0 <= i < |lines| ==> lines[i].quantity > 0
    ensures V.Joined(lines, item) == Demand(lines, item) <==> !Repeats(lines, item)
  {
    if lines != [] {
      var rest := lines[1..];
      DemandFromFront(lines, item);
      DemandNotNegative(rest, item);
      JoinedFallsShort(rest, item);
      RepeatsFromFront(lines, item);
    }
  }

  lemma RepeatsFromFront(lines: seq<Line>, item: Id)
    requires lines != []
    ensures Repeats(lines, item) <==>
      || Repeats(lines[1..], item)
      || (lines[0].item == item && exists j :: 0 <= j < |lines[1..]| && lines[1..][j].item == item)
  {
  }

  /** Releasing what was reserved restores the menu exactly when no finite item is on two lines. */
  lemma ReleaseUndoesReserve(menu: V.Menu, lines: seq<Line>)
    requires forall i :: 0 <= i < |lines| ==> lines[i].quantity > 0
    ensures V.Release(V.Reserve(menu, lines), lines) == menu <==> forall i :: Finite(menu, i) ==> !Repeats(lines, i)
  {
    hide Demand, V.Joined, Repeats;
    var reserved := V.Reserve(menu, lines);
    var released := V.Release(reserved, lines);
    ReserveTakesDemand(menu, lines);
    assert released.Keys == menu.Keys;
    forall i | Finite(menu, i)
      ensures released[i] == menu[i] <==> !Repeats(lines, i)
    {
      JoinedFallsShort(lines, i);
    }
    forall i | i in menu && !Finite(menu, i) ensures released[i] == menu[i] {
    }
    if forall i :: Finite(menu, i) ==> !Repeats(lines, i) {
      assert forall i :: i in menu ==> released[i] == menu[i];
      assert released == menu;
    }
  }

  /** What an order holds: until it is cancelled, an accepted order keeps its quantities. */
  function HeldBy(v: Option<V.Order>, item: Id): int {
    if v.Some? && v.value.status in {Accepted, Preparing, Ready, Completed} then Demand(v.value.lines, item) else 0
  }

  /** The sum of `value` over all rows of a table. */
  ghost function Sum<T>(rows: map<Id, T>, value: T -> int): int {
    if rows == map[] then 0
    else
      var o :| o in rows;
      value(rows[o]) + Sum(rows - {o}, value)
  }

  /** Any row may be summed first. */
  lemma {:induction false} SumWithout<T>(rows: map<Id, T>, o: Id, value: T -> int)
    requires o in rows
    ensures Sum(rows, value) == value(rows[o]) + Sum(rows - {o}, value)
    decreases |rows|
  {
    var x :| x in rows && Sum(rows, value) == value(rows[x]) + Sum(rows - {x}, value);
    if x != o {
      SumWithout(rows - {x}, o, value);
      SumWithout(rows - {o}, x, value);
      assert rows - {x} - {o} == rows - {o} - {x};
    }
  }

  /** Replacing or adding one row changes the sum by that row. */
  lemma SumUpdated<T>(rows: map<Id, T>, o: Id, row: T, value: T -> int)
    ensures Sum(rows[o := row], value) == Sum(rows, value) - (if o in rows then value(rows[o]) else 0) + value(row)
  {
    var after := rows[o := row];
    SumWithout(after, o, value);
    assert after - {o} == rows - {o};
    if o in rows {
      SumWithout(rows, o, value);
    } else {
      assert rows - {o} == rows;
    }
  }

  function Held(c: Cell, item: Id): int {
    HeldBy(c.v, item)
  }

  ghost predicate NotNegative(menu: V.Menu) {
    forall i :: Finite(menu, i) ==> menu[i].stock.value >= 0
  }

  /** `menu` with its orders' holdings equals `other` with theirs. */
  ghost predicate Conserves(c: Cell, menu: V.Menu, d: Cell, other: V.Menu) {
    && SameItems(menu, other)
    && (forall i :: Finite(menu, i) ==>
          menu[i].stock.value + Held(c, i) == other[i].stock.value + Held(d, i))
  }

  /** Reserving unique lines that can all be served leaves no stock negative. */
  lemma OfferedStaysInStock(menu: V.Menu, lines: seq<Line>)
    requires UniqueItems(lines) && NotNegative(menu) && forall i :: 0 <= i < |lines| ==> V.Offered(menu, lines[i])
    ensures NotNegative(V.Reserve(menu, lines))
  {
    ReserveTakesDemand(menu, lines);
    forall i | Finite(menu, i) ensures menu[i].stock.value - Demand(lines, i) >= 0 {
      if k :| 0 <= k < |lines| && lines[k].item == i {
        DemandIsLine(lines, k);
        assert V.Offered(menu, lines[k]);
      } else {
        NoLineNoDemand(lines, i);
      }
    }
  }

  lemma ServedStaysInStock(menu: V.Menu, lines: seq<Line>)
    requires UniqueItems(lines) && |lines| > 0 && V.Judge(menu, lines).Served? && NotNegative(menu)
    ensures NotNegative(V.Reserve(menu, lines))
  {
    V.NoShortage(menu, lines);
    OfferedStaysInStock(menu, lines);
  }

  /** A decision moves quantities from the shelf to its order. */
  lemma ServeConserves(shop: V.Shop, existing: Option<V.Order>, command: OrderCommand, newId: Id)
    requires NotNegative(shop.menu)
    ensures var answer := V.Serve(shop, existing, command, newId);
      && SameItems(shop.menu, answer.shop.menu) && NotNegative(answer.shop.menu)
      && (forall i :: Finite(shop.menu, i) ==>
            shop.menu[i].stock.value + HeldBy(existing, i) == answer.shop.menu[i].stock.value + HeldBy(answer.order, i))
  {
    hide Demand, V.Judge, UniqueItems, V.ValidLine, V.Reserve;
    if V.ValidCommand(command) {
      ReserveTakesDemand(shop.menu, command.lines);
      if V.Judge(shop.menu, command.lines).Served? {
        ServedStaysInStock(shop.menu, command.lines);
      }
    }
  }

  lemma DecideConserves(c: Cell, shop: V.Shop, command: OrderCommand, newId: Id)
    requires NotNegative(shop.menu)
    ensures var answer := V.Serve(shop, c.v, command, newId);
      Conserves(c, shop.menu, c.(v := answer.order), answer.shop.menu) && NotNegative(answer.shop.menu)
  {
    hide V.Serve, HeldBy, NotNegative;
    ServeConserves(shop, c.v, command, newId);
  }

  /** A cancellation moves quantities from its order back to the shelf. */
  lemma CancelReleases(menu: V.Menu, existing: Option<V.Order>, id: Id, now: int)
    requires NotNegative(menu)
    requires existing.Some? ==> UniqueItems(existing.value.lines)
    requires existing.Some? ==> forall i :: 0 <= i < |existing.value.lines| ==> existing.value.lines[i].quantity > 0
    ensures var answer := V.Cancel(menu, existing, id, now);
      && SameItems(menu, answer.menu) && NotNegative(answer.menu)
      && (forall i :: Finite(menu, i) ==>
            menu[i].stock.value + HeldBy(existing, i) == answer.menu[i].stock.value + HeldBy(answer.order, i))
  {
    hide Demand, V.Joined, UniqueItems;
    if existing.Some? && existing.value.cancelDecision.None? && existing.value.status == Accepted {
      forall i | Finite(menu, i)
        ensures V.Joined(existing.value.lines, i) == Demand(existing.value.lines, i) >= 0
      {
        JoinedIsDemand(existing.value.lines, i);
        JoinedNotNegative(existing.value.lines, i);
      }
    }
  }

  lemma CancelConserves(c: Cell, menu: V.Menu, id: Id, now: int)
    requires NotNegative(menu) && (c.v.Some? ==> V.Inv(c.v.value))
    ensures var answer := V.Cancel(menu, c.v, id, now);
      Conserves(c, menu, c.(v := answer.order), answer.menu) && NotNegative(answer.menu)
  {
    hide V.Cancel, HeldBy, NotNegative;
    CancelReleases(menu, c.v, id, now);
  }

  lemma {:induction false} JoinedNotNegative(lines: seq<Line>, item: Id)
    requires forall i :: 0 <= i < |lines| ==> lines[i].quantity > 0
    ensures V.Joined(lines, item) >= 0
  {
    if lines != [] && lines[0].item != item {
      JoinedNotNegative(lines[1..], item);
    }
  }

  lemma HoldingStays(c: Cell, d: Cell, menu: V.Menu)
    requires c.v.Some? && d.v.Some? && d.v.value.lines == c.v.value.lines
    requires d.v.value.status == c.v.value.status
      || {c.v.value.status, d.v.value.status} <= {Accepted, Preparing, Ready, Completed}
    ensures Conserves(c, menu, d, menu)
  {
  }

  predicate MovesStock(a: Action) {
    a.VenueDecides? || a.VenueCancels?
  }

  lemma OtherStepConserves(c: Cell, w: World, a: Action)
    requires Inv(c) && Enabled(c, w, a) && NotNegative(w.shop.menu) && !MovesStock(a)
    ensures var next := Step(c, w, a);
      next.shop == w.shop && Conserves(c, w.shop.menu, next.cell, next.shop.menu)
  {
    hide ClaimsAreGenuine, VenueAnswered, CallbacksAreGenuine, ReceivedIsPrefix, StatusIsJustified, P.Inv;
    if a.StaffMoves? || a.TakeCallback? || a.FinishCallback? {
      HoldingStays(c, Step(c, w, a).cell, w.shop.menu);
    }
  }

  lemma StepConserves(c: Cell, w: World, a: Action)
    requires Inv(c) && Enabled(c, w, a) && NotNegative(w.shop.menu)
    ensures var next := Step(c, w, a);
      Conserves(c, w.shop.menu, next.cell, next.shop.menu) && NotNegative(next.shop.menu)
  {
    if a.VenueDecides? {
      DecideConserves(c, w.shop, a.claim.kind.command, a.newId);
    } else if a.VenueCancels? {
      CancelConserves(c, w.shop.menu, a.eventId, w.now);
    } else {
      OtherStepConserves(c, w, a);
    }
  }
}
