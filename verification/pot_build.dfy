/** The current graph builder (`order_book_to_digraph` in src/pot/optimize.py):
    each order becomes an edge from the good the taker gives up (`want`) to
    the good the taker receives (`have`), with `a = 1/ratio`, an integral
    capacity, and the gcd-based partial-fill grid. */
module PotBuild {

  import opened Results
  import opened Numbers
  import opened MultiDiGraph
  import opened Market

  /** The attributes only the current version stores. `minIncSz` is `None`
      when `partials` is 0: the source divides 0 by 0 there and gets NaN. */
  datatype PotAttrs = PotAttrs(capacity: int, minIncSz: Option<int>, partials: nat)

  /** The partial-fill grid is consistent: `partials` divides `capacity` and
      `partials` fills of `minIncSz` exhaust it exactly. */
  predicate GridConsistent(at: PotAttrs) {
    && Divides(at.partials, at.capacity)
    && (at.partials == 0 <==> at.minIncSz.None?)
    && (at.partials == 0 ==> at.capacity == 0)
    && (at.minIncSz.Some? ==> at.minIncSz.value * at.partials == at.capacity)
  }

  /** One row of the loop body: the edge attributes, or the integrality error.
      The want-side check runs on the already rounded capacity. */
  function OrderEdge(o: Order): (r: Result<PotAttrs, Error>)
    ensures r.Ok? <==> IsIntegral(o.stock)
    ensures r.Err? ==> r.error == NonIntegerQuantity(HaveStock)
    ensures r.Ok? ==> o.stock * o.ratio - 0.5 <= r.value.capacity as real <= o.stock * o.ratio + 0.5
    ensures r.Ok? && IsIntegral(o.stock * o.ratio) ==> r.value.capacity as real == o.stock * o.ratio
    ensures r.Ok? ==> GridConsistent(r.value)
    ensures r.Ok? ==> Divides(r.value.partials, o.stock.Floor)
    ensures r.Ok? ==> forall d: nat :: Divides(d, r.value.capacity) && Divides(d, o.stock.Floor) ==>
                                         Divides(d, r.value.partials)
  {
    EdgeFor(o, RoundHalfEven(o.stock * o.ratio))
  }

  /** The loop body after the capacity is known: both integrality checks,
      then the partial-fill grid. */
  function EdgeFor(o: Order, capacity: int): Result<PotAttrs, Error> {
    if !IsIntegral(capacity as real) then Err(NonIntegerQuantity(WantTotal))
    else if !IsIntegral(o.stock) then Err(NonIntegerQuantity(HaveStock))
    else Ok(Grid(capacity, o.stock.Floor))
  }

  /** `increments = gcd(full_trade_dst, full_trade_src)` and
      `min_inc_sz = full_trade_dst / increments` for whole-number sides. */
  function Grid(total: int, stock: int): (at: PotAttrs)
    ensures at.capacity == total && GridConsistent(at)
    ensures at.partials == Gcd(total, stock) && Divides(at.partials, stock)
    ensures forall d: nat :: Divides(d, total) && Divides(d, stock) ==> Divides(d, at.partials)
  {
    var increments := Gcd(total, stock);
    GcdIsGreatestCommonDivisor(total, stock);
    if increments == 0 then PotAttrs(total, None, increments)
    else
      ExactQuotient(increments, total);
      PotAttrs(total, Some(total / increments), increments)
  }

  function RowSpec(o: Order): Result<EdgeSpec<PotAttrs>, Error>
    requires o.ratio != 0.0
  {
    match OrderEdge(o)
    case Err(e) => Err(e)
    case Ok(at) => Ok(EdgeSpec(o.want, o.have, 1.0 / o.ratio, o.goldCost, at))
  }

  function Rows(orders: seq<Order>): seq<Result<EdgeSpec<PotAttrs>, Error>>
    requires RatiosNonZero(orders)
  {
    seq(|orders|, i requires 0 <= i < |orders| => RowSpec(orders[i]))
  }

  /** `order_book_to_digraph`. */
  function ToDigraph(orders: seq<Order>): Result<Graph<PotAttrs>, Error>
    requires RatiosNonZero(orders)
  {
    Build(Rows(orders))
  }

  /** One edge per order row, in row order, from `want` to `have` with
      `a = 1/ratio`; parallel edges between the same goods are all kept under
      distinct keys. */
  lemma ToDigraphShape(orders: seq<Order>)
    requires RatiosNonZero(orders)
    requires ToDigraph(orders).Ok?
    ensures var es := ToDigraph(orders).value.edges;
      && |es| == |orders|
      && (forall i :: 0 <= i < |es| ==>
            && es[i].id.src == orders[i].want && es[i].id.dst == orders[i].have
            && es[i].a == 1.0 / orders[i].ratio && es[i].goldCost == orders[i].goldCost
            && OrderEdge(orders[i]) == Ok(es[i].attrs))
      && (forall i, j :: 0 <= i < j < |es| ==> es[i].id != es[j].id)
  {
    var es := ToDigraph(orders).value.edges;
    forall i | 0 <= i < |es|
      ensures OrderEdge(orders[i]) == Ok(es[i].attrs)
    {
      assert Rows(orders)[i].Ok?;
    }
    KeysMakeIdsDistinct(es);
  }

  /** The build fails exactly when some stock is not a whole number, and the
      error is then always the have-side one: the want-side check inspects a
      value `round` has already made integral, so it never fires. */
  lemma ToDigraphFailsOnlyOnStock(orders: seq<Order>)
    requires RatiosNonZero(orders)
    ensures ToDigraph(orders).Err? <==> exists i :: 0 <= i < |orders| && !IsIntegral(orders[i].stock)
    ensures ToDigraph(orders).Err? ==> ToDigraph(orders).error == NonIntegerQuantity(HaveStock)
    ensures ToDigraph(orders) != Err(NonIntegerQuantity(WantTotal))
  {
    var rows := Rows(orders);
    if ToDigraph(orders).Err? {
      var i :| 0 <= i < |rows| && rows[i] == Err(ToDigraph(orders).error);
      assert !IsIntegral(orders[i].stock);
    } else {
      forall i | 0 <= i < |orders|
        ensures IsIntegral(orders[i].stock)
      {
        assert rows[i].Ok?;
      }
    }
  }

  /** Every built edge carries a consistent partial-fill grid:
      `min_inc_sz * partials == capacity`, and `partials` is the gcd of the
      capacity and the stock. */
  lemma ToDigraphGrid(orders: seq<Order>)
    requires RatiosNonZero(orders)
    requires ToDigraph(orders).Ok?
    ensures var es := ToDigraph(orders).value.edges;
      forall i :: 0 <= i < |es| ==>
        && GridConsistent(es[i].attrs)
        && es[i].attrs.partials == Gcd(es[i].attrs.capacity, orders[i].stock.Floor)
  {
    ToDigraphShape(orders);
  }

  /** The row `have X, want Y, stock 3, ratio 1/2` asks for 1.5 units of `Y`
      in all; the build accepts it and silently records a capacity of 2. */
  lemma RoundingHidesFractionalTotal()
    ensures var orders := [Order("X", "Y", 3.0, 0.5, 0.0)];
      && !IsIntegral(orders[0].stock * orders[0].ratio)
      && ToDigraph(orders).Ok?
      && ToDigraph(orders).value.edges[0].attrs.capacity == 2
  {
    var orders := [Order("X", "Y", 3.0, 0.5, 0.0)];
    assert (1.5).Floor == 1;
    assert Rows(orders)[0] == RowSpec(orders[0]);
    assert OrderEdge(orders[0]).value.capacity == 2;
  }

  /** The row function with the want-side check made effective: the total
      `stock * ratio` itself must be whole, before any rounding. */
  function OrderEdgeStrict(o: Order): (r: Result<PotAttrs, Error>)
    ensures r.Ok? <==> IsIntegral(o.stock * o.ratio) && IsIntegral(o.stock)
    ensures r == Err(NonIntegerQuantity(WantTotal)) <==> !IsIntegral(o.stock * o.ratio)
    ensures r.Ok? ==> r.value.capacity as real == o.stock * o.ratio && GridConsistent(r.value)
    ensures r.Ok? ==> Divides(r.value.partials, o.stock.Floor)
  {
    if !IsIntegral(o.stock * o.ratio) then Err(NonIntegerQuantity(WantTotal))
    else EdgeFor(o, (o.stock * o.ratio).Floor)
  }

  function RowSpecStrict(o: Order): Result<EdgeSpec<PotAttrs>, Error>
    requires o.ratio != 0.0
  {
    match OrderEdgeStrict(o)
    case Err(e) => Err(e)
    case Ok(at) => Ok(EdgeSpec(o.want, o.have, 1.0 / o.ratio, o.goldCost, at))
  }

  /** The builder as its integrality checks intend it: a graph comes back
      only when every order has a whole stock and a whole total, and then
      every capacity is that total exactly, never a rounded value. */
  function ToDigraphStrict(orders: seq<Order>): (r: Result<Graph<PotAttrs>, Error>)
    requires RatiosNonZero(orders)
    ensures r.Ok? <==> forall i :: 0 <= i < |orders| ==>
                         IsIntegral(orders[i].stock * orders[i].ratio) && IsIntegral(orders[i].stock)
    ensures r.Ok? ==> |r.value.edges| == |orders| &&
                      forall i :: 0 <= i < |orders| ==>
                        && r.value.edges[i].attrs.capacity as real == orders[i].stock * orders[i].ratio
                        && GridConsistent(r.value.edges[i].attrs)
  {
    var rows := seq(|orders|, i requires 0 <= i < |orders| => RowSpecStrict(orders[i]));
    var r := Build(rows);
    assert forall i :: 0 <= i < |orders| ==> (rows[i].Ok? <==> OrderEdgeStrict(orders[i]).Ok?);
    r
  }

  lemma StrictRejectsFractionalTotal()
    ensures ToDigraphStrict([Order("X", "Y", 3.0, 0.5, 0.0)]) == Err(NonIntegerQuantity(WantTotal))
  {
    var orders := [Order("X", "Y", 3.0, 0.5, 0.0)];
    assert (1.5).Floor == 1;
    assert !IsIntegral(orders[0].stock * orders[0].ratio);
  }

  /** The order's total, `stock * ratio`, is a whole number. */
  predicate WholeTotal(o: Order) {
    IsIntegral(o.stock * o.ratio)
  }

  /** Where every total is already whole the corrected builder and the
      builder as written produce the same graph, so the model's lemmas about
      built graphs cover both. */
  lemma StrictAgreesOnWholeTotals(orders: seq<Order>)
    requires RatiosNonZero(orders)
    requires forall i :: 0 <= i < |orders| ==> WholeTotal(orders[i])
    ensures ToDigraphStrict(orders) == ToDigraph(orders)
  {
    var strict := seq(|orders|, i requires 0 <= i < |orders| => RowSpecStrict(orders[i]));
    forall i | 0 <= i < |orders|
      ensures strict[i] == Rows(orders)[i]
    {
      StrictEdgeAgrees(orders[i]);
    }
    assert strict == Rows(orders);
  }

  /** One row: with a whole total, rounding changes nothing. */
  lemma StrictEdgeAgrees(o: Order)
    requires WholeTotal(o)
    ensures OrderEdgeStrict(o) == OrderEdge(o)
  {
    assert RoundHalfEven(o.stock * o.ratio) == (o.stock * o.ratio).Floor;
  }
}
