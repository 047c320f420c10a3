/** The current decision model (`optimal_conversion` in src/pot/optimize.py),
    read as a predicate over a candidate assignment: `Feasible` is the
    conjunction of the variable domains and of every constraint family the
    model registers. The solver itself is not modelled; what it returns is
    taken to be some assignment satisfying `Feasible`. */
module PotModel {

  import opened Results
  import opened Numbers
  import opened MultiDiGraph
  import opened Market
  import opened Flow
  import opened PotBuild

  /** The assembled model: the graph plus the query parameters. */
  datatype Milp = Milp(graph: Graph<PotAttrs>, portfolio: map<Good, real>, target: Good,
                       rounds: int, window: int, initGold: int)

  /** A value for every decision variable: holdings `v`, flows `x`, trade
      indicators `b`, fill counts `p`, the product stand-in `linBp`, per-edge
      totals `z` and gold `g`. Integer-domain variables have integer type. */
  datatype Assignment = Assignment(v: (Good, int) -> real, x: (EdgeId, int) -> real,
                                   b: (EdgeId, int) -> int, p: (EdgeId, int) -> int,
                                   linBp: (EdgeId, int) -> int, z: EdgeId -> real, g: int -> real)

  predicate PortfolioIntegral(portfolio: map<Good, real>) {
    forall k :: k in portfolio ==> IsIntegral(portfolio[k])
  }

  /** Starting holdings of a node: its portfolio amount, or 0 if absent. */
  function InitialHolding(portfolio: map<Good, real>, n: Good): real {
    if n in portfolio then portfolio[n] else 0.0
  }

  /** What every model `OptimalConversion` returns satisfies. */
  predicate Assembled(m: Milp) {
    PortfolioIntegral(m.portfolio) && m.target in Nodes(m.graph.edges) && m.rounds >= 0
  }

  /** Building the model: a non-integral starting amount raises the
      integrality error before anything is built; the objective then indexes
      `v[to_currency, timesteps]`, which raises a `KeyError` unless the target
      is a node and the horizon is non-negative. */
  function OptimalConversion(graph: Graph<PotAttrs>, portfolio: map<Good, real>, target: Good,
                             rounds: int, window: int, initGold: int): (r: Result<Milp, Error>)
    ensures r.Ok? <==> PortfolioIntegral(portfolio) && target in Nodes(graph.edges) && rounds >= 0
    ensures r.Ok? ==> Assembled(r.value)
    ensures !PortfolioIntegral(portfolio) ==> r == Err(NonIntegerQuantity(Holding))
    ensures PortfolioIntegral(portfolio) && r.Err? ==> r.error == UnknownIndex
    ensures r.Ok? ==> r.value.graph == graph && r.value.portfolio == portfolio && r.value.target == target
    ensures r.Ok? ==> r.value.rounds == rounds && r.value.window == window && r.value.initGold == initGold
  {
    if !PortfolioIntegral(portfolio) then Err(NonIntegerQuantity(Holding))
    else if target !in Nodes(graph.edges) || rounds < 0 then Err(UnknownIndex)
    else Ok(Milp(graph, portfolio, target, rounds, window, initGold))
  }

  /** The four inequalities standing for `lin_bp == b * p`. */
  predicate ProductBounds(linBp: int, b: int, p: int, partials: int) {
    && linBp <= b * partials
    && linBp >= p - (1 - b) * partials
    && linBp >= 0
    && linBp <= p
  }

  /** Number of edges touched at round `t`. */
  function Touched(es: seq<Edge<PotAttrs>>, t: int, b: (EdgeId, int) -> int): int {
    if |es| == 0 then 0 else b(es[0].id, t) + Touched(es[1..], t, b)
  }

  predicate Domains(m: Milp, s: Assignment) {
    var es := m.graph.edges;
    && HoldingsNonNegative(Nodes(es), m.rounds, s.v)
    && FlowsNonNegative(es, m.rounds, s.x)
    && FillsNonNegative(es, m.rounds, s.p)
    && GoldNonNegative(m.rounds, s.g)
    && (forall i, t :: 0 <= i < |es| && 1 <= t <= m.rounds ==> 0 <= s.b(es[i].id, t) <= 1)
    && (forall i, t :: 0 <= i < |es| && 1 <= t <= m.rounds ==> s.linBp(es[i].id, t) >= 0)
    && (forall i :: 0 <= i < |es| ==> s.z(es[i].id) >= 0.0)
  }

  /** `upper_bd_prod`, `lower_bd_prod`, `lin_bp_lower`, `lin_bp_upper`. */
  predicate Linearized(m: Milp, s: Assignment) {
    var es := m.graph.edges;
    forall i, t :: 0 <= i < |es| && 1 <= t <= m.rounds ==>
      ProductBounds(s.linBp(es[i].id, t), s.b(es[i].id, t), s.p(es[i].id, t), es[i].attrs.partials)
  }

  /** `integral_trades`: the flow is a whole number of minimal increments.
      An edge whose increment is NaN admits no value, as NaN equals nothing. */
  predicate IntegralTrades(m: Milp, s: Assignment) {
    var es := m.graph.edges;
    forall i, t :: 0 <= i < |es| && 1 <= t <= m.rounds ==>
      match es[i].attrs.minIncSz
      case Some(inc) => s.x(es[i].id, t) == (s.linBp(es[i].id, t) * inc) as real
      case None => false
  }

  /** `total_traded` and `edge_capacity`. */
  predicate WithinCapacity(m: Milp, s: Assignment) {
    var es := m.graph.edges;
    forall i :: 0 <= i < |es| ==>
      s.z(es[i].id) == Traded(s.x, es[i].id, m.rounds) && s.z(es[i].id) <= es[i].attrs.capacity as real
  }

  /** `initial` and `initial_gold`. */
  predicate Initial(m: Milp, s: Assignment) {
    && (forall n :: n in Nodes(m.graph.edges) ==> s.v(n, 0) == InitialHolding(m.portfolio, n))
    && s.g(0) == m.initGold as real
  }

  /** `window_size`. */
  predicate WindowRespected(m: Milp, s: Assignment) {
    forall t :: 1 <= t <= m.rounds ==> Touched(m.graph.edges, t, s.b) <= m.window
  }

  predicate Feasible(m: Milp, s: Assignment) {
    var es := m.graph.edges;
    && Domains(m, s)
    && Linearized(m, s)
    && IntegralTrades(m, s)
    && WithinCapacity(m, s)
    && Initial(m, s)
    && NoShorting(es, m.rounds, s.v, s.x)
    && Balances(es, m.rounds, s.v, s.x)
    && GoldBalances(es, m.rounds, s.g, s.p)
    && WindowRespected(m, s)
  }

  /** The objective `wealth`. */
  function Wealth(m: Milp, s: Assignment): real {
    s.v(m.target, m.rounds)
  }

  /** For a binary `b` and a non-negative fill count `p`, the four
      inequalities hold exactly when `linBp` is the product `b * p` and `p`
      does not exceed the order's number of partial fills. */
  lemma LinearizationExact(linBp: int, b: int, p: int, partials: int)
    requires b == 0 || b == 1
    requires p >= 0
    ensures ProductBounds(linBp, b, p, partials) <==> linBp == b * p && p <= partials
  {
  }

  /** One edge at one round of a feasible assignment. */
  lemma EdgeRound(m: Milp, s: Assignment, i: int, t: int)
    requires Assembled(m) && Feasible(m, s)
    requires 0 <= i < |m.graph.edges| && 1 <= t <= m.rounds
    ensures var e := m.graph.edges[i];
      && e.attrs.minIncSz.Some?
      && s.linBp(e.id, t) == s.b(e.id, t) * s.p(e.id, t)
      && 0 <= s.p(e.id, t) <= e.attrs.partials
      && s.x(e.id, t) == (s.linBp(e.id, t) * e.attrs.minIncSz.value) as real
  {
    var e := m.graph.edges[i];
    assert ProductBounds(s.linBp(e.id, t), s.b(e.id, t), s.p(e.id, t), e.attrs.partials);
    LinearizationExact(s.linBp(e.id, t), s.b(e.id, t), s.p(e.id, t), e.attrs.partials);
  }

  /** In a feasible assignment each round's flow on an edge is
      `b * p * min_inc_sz`, the fill count stays within `partials`, and with a
      consistent grid a single round never moves more than the capacity. */
  lemma FeasibleFlowIsWholeFills(m: Milp, s: Assignment)
    requires Assembled(m) && Feasible(m, s)
    ensures var es := m.graph.edges;
      forall i, t :: 0 <= i < |es| && 1 <= t <= m.rounds ==>
        && es[i].attrs.minIncSz.Some?
        && s.linBp(es[i].id, t) == s.b(es[i].id, t) * s.p(es[i].id, t)
        && s.p(es[i].id, t) <= es[i].attrs.partials
        && s.x(es[i].id, t) == (s.b(es[i].id, t) * s.p(es[i].id, t) * es[i].attrs.minIncSz.value) as real
    ensures var es := m.graph.edges;
      forall i, t :: 0 <= i < |es| && 1 <= t <= m.rounds && GridConsistent(es[i].attrs) && es[i].attrs.capacity >= 0 ==>
        s.x(es[i].id, t) <= es[i].attrs.capacity as real
  {
    var es := m.graph.edges;
    forall i, t | 0 <= i < |es| && 1 <= t <= m.rounds
      ensures s.linBp(es[i].id, t) == s.b(es[i].id, t) * s.p(es[i].id, t)
      ensures s.p(es[i].id, t) <= es[i].attrs.partials
      ensures s.x(es[i].id, t) == (s.b(es[i].id, t) * s.p(es[i].id, t) * es[i].attrs.minIncSz.value) as real
      ensures GridConsistent(es[i].attrs) && es[i].attrs.capacity >= 0 ==>
                s.x(es[i].id, t) <= es[i].attrs.capacity as real
    {
      EdgeRound(m, s, i, t);
      var at := es[i].attrs;
      if GridConsistent(at) && at.capacity >= 0 {
        var inc := at.minIncSz.value;
        assert inc * at.partials == at.capacity;
        MulMonotone(s.linBp(es[i].id, t), at.partials, inc);
      }
    }
  }

  lemma MulMonotone(a: int, b: int, c: int)
    requires 0 <= a <= b && c >= 0
    ensures a * c <= c * b
  {
  }

  /** No order is over-filled: the total traded on each edge over the whole
      horizon stays within its capacity. */
  lemma NoOrderOverFilled(m: Milp, s: Assignment)
    requires Assembled(m) && Feasible(m, s)
    ensures forall i :: 0 <= i < |m.graph.edges| ==>
      Traded(s.x, m.graph.edges[i].id, m.rounds) <= m.graph.edges[i].attrs.capacity as real
  {
  }

  /** With non-negative gold costs gold never increases, and the fills paid
      for over the whole horizon cost at most the starting gold. */
  lemma GoldIsOnlySpent(m: Milp, s: Assignment)
    requires Assembled(m) && Feasible(m, s) && CostsNonNegative(m.graph.edges)
    ensures forall t :: 1 <= t <= m.rounds ==> s.g(t) <= s.g(t - 1)
    ensures GoldSpentUpTo(m.graph.edges, m.rounds, s.p) <= m.initGold as real
  {
    GoldNeverIncreases(m.graph.edges, m.rounds, s.g, s.p);
    GoldLedger(m.graph.edges, m.rounds, s.g, s.p, m.rounds);
  }

  lemma {:induction false} NothingTouched(es: seq<Edge<PotAttrs>>, t: int, b: (EdgeId, int) -> int)
    requires forall i :: 0 <= i < |es| ==> b(es[i].id, t) >= 0
    requires Touched(es, t, b) <= 0
    ensures forall i :: 0 <= i < |es| ==> b(es[i].id, t) == 0
  {
    if |es| > 0 {
      TouchedNonNegative(es[1..], t, b);
      NothingTouched(es[1..], t, b);
      assert forall i :: 1 <= i < |es| ==> es[i] == es[1..][i - 1];
    }
  }

  lemma {:induction false} TouchedNonNegative(es: seq<Edge<PotAttrs>>, t: int, b: (EdgeId, int) -> int)
    requires forall i :: 0 <= i < |es| ==> b(es[i].id, t) >= 0
    ensures Touched(es, t, b) >= 0
  {
    if |es| > 0 {
      TouchedNonNegative(es[1..], t, b);
    }
  }

  /** Whatever forces every fill count to zero, or every indicator to zero,
      stops all trading, and every node ends where it started. */
  lemma UnfilledMeansFrozen(m: Milp, s: Assignment)
    requires Assembled(m) && Feasible(m, s)
    requires var es := m.graph.edges;
      forall i, t :: 0 <= i < |es| && 1 <= t <= m.rounds ==> s.b(es[i].id, t) == 0 || s.p(es[i].id, t) == 0
    ensures var es := m.graph.edges;
      forall i, t :: 0 <= i < |es| && 1 <= t <= m.rounds ==> s.linBp(es[i].id, t) == 0 && s.x(es[i].id, t) == 0.0
    ensures forall n :: n in Nodes(m.graph.edges) ==> s.v(n, m.rounds) == InitialHolding(m.portfolio, n)
  {
    var es := m.graph.edges;
    forall i, t | 0 <= i < |es| && 1 <= t <= m.rounds
      ensures s.linBp(es[i].id, t) == 0 && s.x(es[i].id, t) == 0.0
    {
      EdgeRound(m, s, i, t);
    }
    assert forall t :: 1 <= t <= m.rounds ==> Idle(es, t, s.x);
    forall n | n in Nodes(es)
      ensures s.v(n, m.rounds) == InitialHolding(m.portfolio, n)
    {
      IdleRoundsFreeze(es, m.rounds, s.v, s.x, n, m.rounds);
    }
  }

  /** A window of 0 forbids every trade: all indicators, products and flows
      are 0 and each node ends with its starting amount, so the objective is
      the target's portfolio amount, or 0 if it has none. */
  lemma WindowZeroForbidsTrading(m: Milp, s: Assignment)
    requires Assembled(m) && Feasible(m, s) && m.window == 0
    ensures var es := m.graph.edges;
      forall i, t :: 0 <= i < |es| && 1 <= t <= m.rounds ==>
        s.b(es[i].id, t) == 0 && s.linBp(es[i].id, t) == 0 && s.x(es[i].id, t) == 0.0
    ensures forall n :: n in Nodes(m.graph.edges) ==> s.v(n, m.rounds) == InitialHolding(m.portfolio, n)
    ensures Wealth(m, s) == InitialHolding(m.portfolio, m.target)
  {
    forall i, t | 0 <= i < |m.graph.edges| && 1 <= t <= m.rounds
      ensures s.b(m.graph.edges[i].id, t) == 0
    {
      NothingTouched(m.graph.edges, t, s.b);
    }
    UnfilledMeansFrozen(m, s);
  }

  /** With no starting gold and a positive gold cost on every edge no fill
      can be paid for: every fill count and flow is 0 and every node ends
      with its starting amount. */
  lemma NoGoldForbidsTrading(m: Milp, s: Assignment)
    requires Assembled(m) && Feasible(m, s) && m.initGold == 0
    requires forall i :: 0 <= i < |m.graph.edges| ==> m.graph.edges[i].goldCost > 0.0
    ensures var es := m.graph.edges;
      forall i, t :: 0 <= i < |es| && 1 <= t <= m.rounds ==> s.p(es[i].id, t) == 0 && s.x(es[i].id, t) == 0.0
    ensures forall n :: n in Nodes(m.graph.edges) ==> s.v(n, m.rounds) == InitialHolding(m.portfolio, n)
  {
    var es := m.graph.edges;
    GoldNeverIncreases(es, m.rounds, s.g, s.p);
    forall i, t | 0 <= i < |es| && 1 <= t <= m.rounds
      ensures s.p(es[i].id, t) == 0
    {
      GoldStaysZero(m, s, t);
      FreeRoundFillsNothing(es, t, s.p);
    }
    UnfilledMeansFrozen(m, s);
  }

  /** With no starting gold and non-negative gold costs, the gold balance
      stays at 0 in every round and no round charges anything. */
  lemma {:induction false} GoldStaysZero(m: Milp, s: Assignment, t: int)
    requires Assembled(m) && Feasible(m, s) && m.initGold == 0
    requires CostsNonNegative(m.graph.edges)
    requires 0 <= t <= m.rounds
    ensures s.g(t) == 0.0
    ensures t >= 1 ==> GoldSpent(m.graph.edges, t, s.p) <= 0.0
    decreases t
  {
    if t > 0 {
      GoldNeverIncreases(m.graph.edges, m.rounds, s.g, s.p);
      GoldStaysZero(m, s, t - 1);
    }
  }

  /** The built graph's multipliers `a = 1/ratio` are all non-negative
      exactly when every order's ratio is positive, so the non-negative-rate
      lemmas below hold for every order book of genuine prices. */
  lemma RatesNonNegativeIffPositiveRatios(orders: seq<Order>)
    requires RatiosNonZero(orders)
    ensures ToDigraph(orders).Ok? ==>
      (RatesNonNegative(ToDigraph(orders).value.edges) <==> RatiosPositive(orders))
  {
    if ToDigraph(orders).Ok? {
      var es := ToDigraph(orders).value.edges;
      ToDigraphShape(orders);
      forall i | 0 <= i < |orders|
        ensures es[i].a >= 0.0 <==> orders[i].ratio > 0.0
      {
        ReciprocalSign(orders[i].ratio);
      }
    }
  }

  lemma ReciprocalSign(r: real)
    requires r != 0.0
    ensures 1.0 / r >= 0.0 <==> r > 0.0
  {
    if r > 0.0 {
      assert 1.0 / r > 0.0;
    } else {
      assert 1.0 / r < 0.0;
    }
  }

  /** Holdings can never go negative after round 0 whatever the solver's
      domain says: no-shorting alone keeps each node at or above what it
      received, provided every multiplier `a` is non-negative. */
  lemma NoShortingKeepsHoldings(m: Milp, s: Assignment)
    requires Assembled(m) && Feasible(m, s) && RatesNonNegative(m.graph.edges)
    ensures forall n, t :: n in Nodes(m.graph.edges) && 1 <= t <= m.rounds ==>
      s.v(n, t) >= InFlow(m.graph.edges, n, t, s.x) >= 0.0
  {
    HoldingsCoverInFlow(m.graph.edges, m.rounds, s.v, s.x);
  }

  /** A good that no order lets anyone buy (no edge leads into it) is never
      worth more at the end than at the start. */
  lemma UnreachableTargetNeverGrows(m: Milp, s: Assignment)
    requires Assembled(m) && Feasible(m, s)
    requires forall i :: 0 <= i < |m.graph.edges| ==> m.graph.edges[i].id.dst != m.target
    ensures Wealth(m, s) <= InitialHolding(m.portfolio, m.target)
  {
    NoIncomingNeverGrows(m.graph.edges, m.rounds, s.v, s.x, m.target, m.rounds);
  }

  /** The order `have X, want Y, stock 100, ratio 2` becomes the single edge
      Y -> X with `a = 1/2`, capacity 200, 100 partial fills of 2. */
  lemma OneOrderGraph()
    ensures ToDigraph([Order("X", "Y", 100.0, 2.0, 0.0)])
         == Ok(Graph([Edge(EdgeId("Y", "X", 0), 0.5, 0.0, PotAttrs(200, Some(2), 100))]))
  {
    var o := Order("X", "Y", 100.0, 2.0, 0.0);
    assert RoundHalfEven(200.0) == 200;
    assert Gcd(200, 100) == 100 by {
      assert NatGcd(200, 100) == NatGcd(100, 0);
    }
    assert OrderEdge(o) == Ok(PotAttrs(200, Some(2), 100));
    assert Rows([o]) == [RowSpec(o)];
  }

  /** Starting from 10 X with that single order, no horizon, window or
      gold lets the holder end with any Y: the order sells X for Y, so the
      edge leads out of Y, never into it. */
  lemma OneOrderYieldsNothing(g: Graph<PotAttrs>, m: Milp, rounds: int, window: int, initGold: int)
    requires ToDigraph([Order("X", "Y", 100.0, 2.0, 0.0)]) == Ok(g)
    requires OptimalConversion(g, map["X" := 10.0], "Y", rounds, window, initGold) == Ok(m)
    ensures forall s :: Feasible(m, s) ==> Wealth(m, s) == 0.0
  {
    OneOrderShape(g, m, rounds, window, initGold);
    OneOrderStrandsTarget(m);
    forall s | Feasible(m, s)
      ensures Wealth(m, s) == 0.0
    {
      StrandedTargetEndsEmpty(m, s);
    }
  }

  /** A target that nothing flows into and that starts empty ends empty. */
  lemma StrandedTargetEndsEmpty(m: Milp, s: Assignment)
    requires Assembled(m) && Feasible(m, s)
    requires forall i :: 0 <= i < |m.graph.edges| ==> m.graph.edges[i].id.dst != m.target
    requires m.target !in m.portfolio
    ensures Wealth(m, s) == 0.0
  {
    assert InitialHolding(m.portfolio, m.target) == 0.0;
    UnreachableTargetNeverGrows(m, s);
    assert m.target in Nodes(m.graph.edges);
  }

  /** The model built on that order book: one edge, from Y into X, and
      target Y. */
  lemma OneOrderShape(g: Graph<PotAttrs>, m: Milp, rounds: int, window: int, initGold: int)
    requires ToDigraph([Order("X", "Y", 100.0, 2.0, 0.0)]) == Ok(g)
    requires OptimalConversion(g, map["X" := 10.0], "Y", rounds, window, initGold) == Ok(m)
    ensures m.graph == g && m.graph.edges == [Edge(EdgeId("Y", "X", 0), 0.5, 0.0, PotAttrs(200, Some(2), 100))]
    ensures m.target == "Y" && m.portfolio == map["X" := 10.0] && Assembled(m)
  {
    OneOrderGraph();
  }

  /** In that model nothing flows into the target, and the target starts
      empty. */
  lemma OneOrderStrandsTarget(m: Milp)
    requires m.graph.edges == [Edge(EdgeId("Y", "X", 0), 0.5, 0.0, PotAttrs(200, Some(2), 100))]
    requires m.target == "Y" && m.portfolio == map["X" := 10.0]
    ensures m.target !in m.portfolio
    ensures forall i :: 0 <= i < |m.graph.edges| ==> m.graph.edges[i].id.dst != m.target
  {
  }
}
