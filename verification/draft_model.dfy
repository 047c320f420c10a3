/** The earlier decision model (`optimal_conversion` in src/poefx/optimize.py)
    as a predicate over a candidate assignment. It has no trade indicator, no
    product linearization and no window; a single starting currency is
    funded. */
module DraftModel {

  import opened Results
  import opened MultiDiGraph
  import opened Market
  import opened Flow
  import opened DraftBuild

  datatype DraftMilp = DraftMilp(graph: Graph<DraftAttrs>, from: Good, to: Good, fromQty: int,
                                 rounds: int, initGold: int)

  /** Holdings `v`, flows `x`, fill counts `p`, per-edge totals `z`, gold `g`. */
  datatype DraftAssignment = DraftAssignment(v: (Good, int) -> real, x: (EdgeId, int) -> real,
                                             p: (EdgeId, int) -> int, z: EdgeId -> real, g: int -> real)

  predicate DraftAssembled(m: DraftMilp) {
    m.to in Nodes(m.graph.edges) && m.rounds >= 0
  }

  /** Building the draft model checks nothing itself; only the objective's
      `v[to_currency, num_trades]` can raise a `KeyError`. */
  function DraftOptimalConversion(graph: Graph<DraftAttrs>, from: Good, to: Good, fromQty: int,
                                  rounds: int, initGold: int): (r: Result<DraftMilp, Error>)
    ensures r.Ok? <==> to in Nodes(graph.edges) && rounds >= 0
    ensures r.Err? ==> r.error == UnknownIndex
    ensures r.Ok? ==> DraftAssembled(r.value) && r.value.graph == graph && r.value.from == from
    ensures r.Ok? ==> r.value.fromQty == fromQty && r.value.initGold == initGold
    ensures r.Ok? ==> r.value.to == to && r.value.rounds == rounds
  {
    if to !in Nodes(graph.edges) || rounds < 0 then Err(UnknownIndex)
    else Ok(DraftMilp(graph, from, to, fromQty, rounds, initGold))
  }

  /** Starting holdings: only the starting currency is funded. */
  function DraftInitialHolding(m: DraftMilp, n: Good): real {
    if n == m.from then m.fromQty as real else 0.0
  }

  predicate DraftDomains(m: DraftMilp, s: DraftAssignment) {
    var es := m.graph.edges;
    && HoldingsNonNegative(Nodes(es), m.rounds, s.v)
    && FlowsNonNegative(es, m.rounds, s.x)
    && FillsNonNegative(es, m.rounds, s.p)
    && GoldNonNegative(m.rounds, s.g)
    && (forall i :: 0 <= i < |es| ==> s.z(es[i].id) >= 0.0)
  }

  /** `integral_trades`, `total_traded`, `edge_capacity`. */
  predicate DraftTrades(m: DraftMilp, s: DraftAssignment) {
    var es := m.graph.edges;
    && (forall i, t :: 0 <= i < |es| && 1 <= t <= m.rounds ==>
          s.x(es[i].id, t) == s.p(es[i].id, t) as real * es[i].attrs.minInc)
    && (forall i :: 0 <= i < |es| ==>
          s.z(es[i].id) == Traded(s.x, es[i].id, m.rounds) && s.z(es[i].id) <= es[i].attrs.capacity)
  }

  /** `initial` and `initial_gold`. */
  predicate DraftInitial(m: DraftMilp, s: DraftAssignment) {
    && (forall n :: n in Nodes(m.graph.edges) ==> s.v(n, 0) == DraftInitialHolding(m, n))
    && s.g(0) == m.initGold as real
  }

  predicate DraftFeasible(m: DraftMilp, s: DraftAssignment) {
    var es := m.graph.edges;
    && DraftDomains(m, s)
    && DraftTrades(m, s)
    && DraftInitial(m, s)
    && NoShorting(es, m.rounds, s.v, s.x)
    && Balances(es, m.rounds, s.v, s.x)
    && GoldBalances(es, m.rounds, s.g, s.p)
  }

  function DraftWealth(m: DraftMilp, s: DraftAssignment): real {
    s.v(m.to, m.rounds)
  }

  /** Every round's flow on an edge is a whole, non-negative number of the
      edge's minimal increments, with no indicator gating it, and no order is
      over-filled over the horizon. */
  lemma DraftFlowIsWholeFills(m: DraftMilp, s: DraftAssignment)
    requires DraftAssembled(m) && DraftFeasible(m, s)
    ensures var es := m.graph.edges;
      forall i, t :: 0 <= i < |es| && 1 <= t <= m.rounds ==>
        s.p(es[i].id, t) >= 0 && s.x(es[i].id, t) == s.p(es[i].id, t) as real * es[i].attrs.minInc
    ensures var es := m.graph.edges;
      forall i :: 0 <= i < |es| ==> Traded(s.x, es[i].id, m.rounds) <= es[i].attrs.capacity
  {
  }

  /** Only the starting currency starts with anything. */
  lemma DraftOnlySourceFunded(m: DraftMilp, s: DraftAssignment)
    requires DraftAssembled(m) && DraftFeasible(m, s)
    ensures forall n :: n in Nodes(m.graph.edges) && n != m.from ==> s.v(n, 0) == 0.0
    ensures m.from in Nodes(m.graph.edges) ==> s.v(m.from, 0) == m.fromQty as real
  {
  }

  /** A starting currency that no order mentions funds nothing: every node
      holds 0 throughout, nothing is traded and the objective is 0. */
  lemma DraftUnknownSourceYieldsNothing(m: DraftMilp, s: DraftAssignment)
    requires DraftAssembled(m) && DraftFeasible(m, s)
    requires m.from !in Nodes(m.graph.edges)
    ensures var es := m.graph.edges;
      forall i, t :: 0 <= i < |es| && 1 <= t <= m.rounds ==> s.x(es[i].id, t) == 0.0
    ensures DraftWealth(m, s) == 0.0
  {
    NothingFromNothing(m.graph.edges, m.rounds, s.v, s.x, m.rounds);
  }

  /** The draft's multipliers `a = ratio` are all non-negative exactly when
      every order's ratio is positive. */
  lemma DraftRatesNonNegativeIffPositiveRatios(orders: seq<Order>)
    requires RatiosNonZero(orders)
    ensures DraftToDigraph(orders).Ok? ==>
      (RatesNonNegative(DraftToDigraph(orders).value.edges) <==> RatiosPositive(orders))
  {
    if DraftToDigraph(orders).Ok? {
      DraftToDigraphShape(orders);
    }
  }

  /** Holdings after every round cover what was received, so they stay
      non-negative by no-shorting alone when every `a` is non-negative. */
  lemma DraftNoShortingKeepsHoldings(m: DraftMilp, s: DraftAssignment)
    requires DraftAssembled(m) && DraftFeasible(m, s) && RatesNonNegative(m.graph.edges)
    ensures forall n, t :: n in Nodes(m.graph.edges) && 1 <= t <= m.rounds ==>
      s.v(n, t) >= InFlow(m.graph.edges, n, t, s.x) >= 0.0
  {
    HoldingsCoverInFlow(m.graph.edges, m.rounds, s.v, s.x);
  }

  /** With non-negative gold costs gold never increases and the total
      charged stays within the starting gold. */
  lemma DraftGoldIsOnlySpent(m: DraftMilp, s: DraftAssignment)
    requires DraftAssembled(m) && DraftFeasible(m, s) && CostsNonNegative(m.graph.edges)
    ensures forall t :: 1 <= t <= m.rounds ==> s.g(t) <= s.g(t - 1)
    ensures GoldSpentUpTo(m.graph.edges, m.rounds, s.p) <= m.initGold as real
  {
    GoldNeverIncreases(m.graph.edges, m.rounds, s.g, s.p);
    GoldLedger(m.graph.edges, m.rounds, s.g, s.p, m.rounds);
  }
}
