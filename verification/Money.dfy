/** The platform's price and the venue's price of one order. */
module Money {
  import opened Types
  import opened Amounts
  import opened Protocol
  import opened Progress
  import P = Platform
  import V = Venue

  ghost predicate Priced(c: Cell) {
    && |c.p.jobs| > 0 && c.p.jobs[0].kind.ConfirmOrder?
    && V.ValidCommand(c.p.jobs[0].kind.command)
    && Total(c.p.jobs[0].kind.command.lines) == c.p.row.amount <= MAX_INT64
    && (c.v.Some? && c.v.value.decision.Accept? ==>
          c.v.value.decision.amount == c.p.row.amount && c.v.value.lines == c.p.jobs[0].kind.command.lines)
  }

  lemma {:induction false} OfferedCostsLess(menu: V.Menu, lines: seq<Line>)
    requires forall i :: 0 <= i < |lines| ==> V.ValidLine(lines[i])
    ensures 0 <= Total(V.OfferedLines(menu, lines)) <= Total(lines)
  {
    if lines != [] {
      var front, last := lines[..|lines| - 1], lines[|lines| - 1];
      assert V.ValidLine(last);
      forall i | 0 <= i < |front| ensures V.ValidLine(front[i]) {
        assert front[i] == lines[i];
      }
      OfferedCostsLess(menu, front);
      Monotone(last.price, 0, last.quantity);
      var offered := V.OfferedLines(menu, front);
      assert (offered + [last])[..|offered|] == offered;
      assert offered + [] == offered;
    }
  }

  lemma JudgeNeverOverflows(menu: V.Menu, lines: seq<Line>)
    requires |lines| > 0 && Total(V.OfferedLines(menu, lines)) <= MAX_INT64
    ensures !V.Judge(menu, lines).Overflow?
    ensures V.Judge(menu, lines).Served? ==> V.Judge(menu, lines).amount == Total(lines)
  {
  }

  /** The venue's overflow guards never fire and its validation never refuses: it always answers, and
      an acceptance carries exactly the amount of the command. */
  lemma ServeAnswers(shop: V.Shop, existing: Option<V.Order>, command: OrderCommand, newId: Id)
    requires V.ValidCommand(command) && Total(command.lines) <= MAX_INT64
    ensures var answer := V.Serve(shop, existing, command, newId);
      && answer.reply.Commit? && answer.order.Some?
      && (existing.None? && answer.order.value.decision.Accept? ==>
            answer.order.value.decision.amount == Total(command.lines) && answer.order.value.lines == command.lines)
  {
    hide Total, V.OfferedLines, V.Judge, V.Reserve, V.ValidLine, UniqueItems;
    OfferedCostsLess(shop.menu, command.lines);
    JudgeNeverOverflows(shop.menu, command.lines);
  }

  lemma StepKeepsPriced(c: Cell, w: World, a: Action)
    requires Inv(c) && Priced(c) && Enabled(c, w, a)
    ensures Priced(Step(c, w, a).cell)
  {
    var d := Step(c, w, a).cell;
    StepIsLater(c, w, a);
    assert d.p.jobs[0].kind == c.p.jobs[0].kind;
    if c.v.None? && a.VenueDecides? {
      assert a.claim in c.net.claims && a.claim.kind == c.p.jobs[0].kind;
      ServeAnswers(w.shop, c.v, a.claim.kind.command, a.newId);
    }
  }

  /** Every confirmation request that reaches the venue is answered with a decision. */
  lemma RequestsAreAnswered(c: Cell, w: World, cl: P.Claim, newId: Id)
    requires Inv(c) && Priced(c) && cl in c.net.sent && cl.kind.ConfirmOrder?
    ensures var reply := V.Serve(w.shop, c.v, cl.kind.command, newId).reply;
      reply.Commit? && (reply.state.Accept? ==> reply.state.amount == c.p.row.amount)
  {
    assert cl in c.net.claims && cl.kind == c.p.jobs[0].kind;
    ServeAnswers(w.shop, c.v, cl.kind.command, newId);
  }

  /** The client's amount check always holds; only a different currency can fail it. */
  lemma AmountCheckHolds(c: Cell, cl: P.Claim, decision: Decision)
    requires Inv(c) && Priced(c) && (cl, decision) in c.net.decisions && decision.Accept?
    ensures decision.amount == cl.amount
    ensures ClientAccepts(cl, decision) <==> decision.currency == cl.currency
  {
  }
}
