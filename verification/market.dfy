/** The order book's rows and the errors the builders and model raise. */
module Market {

  import opened MultiDiGraph

  /** One row of the order book: someone offers `stock` units of `have` and
      asks for `want`, at unit price `ratio`, charging `goldCost` per fill. */
  datatype Order = Order(have: Good, want: Good, stock: real, ratio: real, goldCost: real)

  /** Which quantity failed the integrality check. */
  datatype Quantity = WantTotal | HaveStock | Holding

  /** The exceptions the model tracks. The source raises a single
      integrality exception class (whose import is broken, see README);
      `UnknownIndex` is the `KeyError` Pyomo raises for an index outside a
      variable's index set; `ZeroDivision` is Python's `ZeroDivisionError`. */
  datatype Error = NonIntegerQuantity(what: Quantity) | UnknownIndex | ZeroDivision

  /** Every ratio can be divided by (the order book's ratios are positive). */
  predicate RatiosNonZero(orders: seq<Order>) {
    forall i :: 0 <= i < |orders| ==> orders[i].ratio != 0.0
  }

  /** Every ratio is a price, that is strictly positive. */
  predicate RatiosPositive(orders: seq<Order>) {
    forall i :: 0 <= i < |orders| ==> orders[i].ratio > 0.0
  }
}
