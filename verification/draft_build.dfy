/** The earlier graph builder (`order_book_to_digraph` in src/poefx/optimize.py):
    edges run the other way, from `have` to `want`, with `a = ratio`; the
    capacity is `stock / ratio` as is, and the sides of the increment grid
    are truncated to integers instead of checked. */
module DraftBuild {

  import opened Results
  import opened Numbers
  import opened MultiDiGraph
  import opened Market
  import PotBuild

  /** The attributes only the draft stores; it has no `partials`. */
  datatype DraftAttrs = DraftAttrs(capacity: real, minInc: real)

  /** One row of the draft loop body. Python's `/` on two integers raises
      `ZeroDivisionError` when both truncated sides are 0. */
  function DraftOrderEdge(o: Order): (r: Result<DraftAttrs, Error>)
    requires o.ratio != 0.0
    ensures r.Err? <==> Trunc(o.ratio * o.stock) == 0 && Trunc(o.stock) == 0
    ensures r.Err? ==> r.error == ZeroDivision
    ensures r.Ok? ==> r.value.capacity * o.ratio == o.stock
    ensures r.Ok? ==> var increments := Gcd(Trunc(o.ratio * o.stock), Trunc(o.stock));
      && increments > 0
      && r.value.minInc * increments as real == Trunc(o.stock) as real
      && IsIntegral(r.value.minInc)
      && Divides(increments, Trunc(o.ratio * o.stock))
  {
    var capacity := o.stock / o.ratio;
    var fullTradeDst := Trunc(o.ratio * o.stock);
    var fullTradeSrc := Trunc(o.stock);
    var increments := Gcd(fullTradeDst, fullTradeSrc);
    GcdIsGreatestCommonDivisor(fullTradeDst, fullTradeSrc);
    if increments == 0 then Err(ZeroDivision)
    else
      ExactQuotient(increments, fullTradeSrc);
      Ok(DraftAttrs(capacity, fullTradeSrc as real / increments as real))
  }

  function DraftRowSpec(o: Order): Result<EdgeSpec<DraftAttrs>, Error>
    requires o.ratio != 0.0
  {
    match DraftOrderEdge(o)
    case Err(e) => Err(e)
    case Ok(at) => Ok(EdgeSpec(o.have, o.want, o.ratio, o.goldCost, at))
  }

  function DraftRows(orders: seq<Order>): seq<Result<EdgeSpec<DraftAttrs>, Error>>
    requires RatiosNonZero(orders)
  {
    seq(|orders|, i requires 0 <= i < |orders| => DraftRowSpec(orders[i]))
  }

  /** The draft `order_book_to_digraph`. */
  function DraftToDigraph(orders: seq<Order>): Result<Graph<DraftAttrs>, Error>
    requires RatiosNonZero(orders)
  {
    Build(DraftRows(orders))
  }

  /** One edge per order row, in row order, from `have` to `want` with
      `a = ratio`, all kept under distinct keys. */
  lemma DraftToDigraphShape(orders: seq<Order>)
    requires RatiosNonZero(orders)
    requires DraftToDigraph(orders).Ok?
    ensures var es := DraftToDigraph(orders).value.edges;
      && |es| == |orders|
      && (forall i :: 0 <= i < |es| ==>
            && es[i].id.src == orders[i].have && es[i].id.dst == orders[i].want
            && es[i].a == orders[i].ratio && es[i].goldCost == orders[i].goldCost
            && DraftOrderEdge(orders[i]) == Ok(es[i].attrs))
      && (forall i, j :: 0 <= i < j < |es| ==> es[i].id != es[j].id)
  {
    var es := DraftToDigraph(orders).value.edges;
    forall i | 0 <= i < |es|
      ensures DraftOrderEdge(orders[i]) == Ok(es[i].attrs)
    {
      assert DraftRows(orders)[i].Ok?;
    }
    KeysMakeIdsDistinct(es);
  }

  /** The draft never raises an integrality error: it fails only with a
      division by zero, exactly when some row's stock and total both
      truncate to 0. */
  lemma DraftFailsOnlyOnEmptyGrid(orders: seq<Order>)
    requires RatiosNonZero(orders)
    ensures DraftToDigraph(orders).Err? <==>
      exists i :: 0 <= i < |orders| && Trunc(orders[i].ratio * orders[i].stock) == 0 && Trunc(orders[i].stock) == 0
    ensures DraftToDigraph(orders).Err? ==> DraftToDigraph(orders).error == ZeroDivision
  {
    var rows := DraftRows(orders);
    assert |rows| == |orders|;
    if DraftToDigraph(orders).Err? {
      var i :| 0 <= i < |rows| && rows[i] == Err(DraftToDigraph(orders).error);
      assert rows[i] == DraftRowSpec(orders[i]);
      assert DraftOrderEdge(orders[i]).Err?;
    } else {
      forall i | 0 <= i < |orders|
        ensures !(Trunc(orders[i].ratio * orders[i].stock) == 0 && Trunc(orders[i].stock) == 0)
      {
        assert rows[i] == DraftRowSpec(orders[i]);
        assert rows[i].Ok?;
      }
    }
  }

  /** A fractional stock goes through: `have X, want Y, stock 2.5, ratio 2`
      yields an edge of capacity 1.25 whose grid is built from the truncated
      stock 2 and total 5: gcd 1, minimal increment 2. */
  lemma DraftAcceptsFractionalStock()
    ensures var g := DraftToDigraph([Order("X", "Y", 2.5, 2.0, 0.0)]);
      && g.Ok?
      && g.value.edges[0].attrs == DraftAttrs(1.25, 2.0)
  {
    var o := Order("X", "Y", 2.5, 2.0, 0.0);
    assert Trunc(2.5) == 2;
    assert Trunc(5.0) == 5;
    assert Gcd(5, 2) == 1 by {
      assert NatGcd(5, 2) == NatGcd(2, 1) == NatGcd(1, 0);
    }
    assert DraftOrderEdge(o) == Ok(DraftAttrs(1.25, 2.0));
    assert DraftRows([o]) == [DraftRowSpec(o)];
  }

  /** For the same order the two versions' edges are reverses of each other
      with reciprocal multipliers: the draft lets a taker give up `have` for
      `want`, the current version lets a taker give up `want` for `have`. */
  lemma VersionsReverseEachOther(o: Order)
    requires o.ratio != 0.0
    requires DraftRowSpec(o).Ok? && PotBuild.RowSpec(o).Ok?
    ensures var d, c := DraftRowSpec(o).value, PotBuild.RowSpec(o).value;
      d.src == c.dst && d.dst == c.src && d.a * c.a == 1.0
  {
  }
}
