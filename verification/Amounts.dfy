/** The int64 guards that both services wrap around a running total. */
module Amounts {
  import opened Types

  lemma Monotone(x: int, a: int, b: int)
    requires x >= 0 && a <= b
    ensures x * a <= x * b
  {
  }

  /** Comparing with the quotient is the same as comparing the product. */
  lemma GuardIsExact(price: int, quantity: int)
    requires price >= 0 && quantity >= 0
    ensures price * quantity >= 0
    ensures price > 0 && quantity > MAX_INT64 / price <==> price * quantity > MAX_INT64
  {
    Monotone(price, 0, quantity);
    if price > 0 {
      var bound := MAX_INT64 / price;
      assert price * bound <= MAX_INT64 < price * (bound + 1);
      if quantity > bound {
        Monotone(price, bound + 1, quantity);
      } else {
        Monotone(price, quantity, bound);
      }
    }
  }

  /** Adds one line to the total; None exactly when the mathematical sum leaves int64. No intermediate
      value of the computation leaves int64 either. */
  method AddLine(total: int, price: int, quantity: int) returns (sum: Option<int>)
    requires 0 <= total <= MAX_INT64 && price >= 0 && quantity >= 0
    ensures sum.None? <==> total + price * quantity > MAX_INT64
    ensures sum.Some? ==> sum.value == total + price * quantity
  {
    GuardIsExact(price, quantity);
    if price > 0 && quantity > MAX_INT64 / price {
      return None;
    }
    var lineTotal := price * quantity;
    assert 0 <= lineTotal <= MAX_INT64;
    if total > MAX_INT64 - lineTotal {
      return None;
    }
    sum := Some(total + lineTotal);
  }

  lemma TotalOfAppended(lines: seq<Line>, line: Line)
    ensures Total(lines + [line]) == Total(lines) + line.price * line.quantity
  {
  }
}
