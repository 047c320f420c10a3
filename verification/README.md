# Path of Trading — a Dafny model of the order-book optimiser

Path of Trading looks for currency mispricings on the Path of Exile currency
exchange. It turns an order book into a multigraph of goods and poses a mixed
integer linear program (MILP) over that graph. The program asks how to
convert a starting portfolio into as much of a target currency as possible,
within a number of trading rounds, a trading window and a gold budget. The
repository holds two versions: the current one (`src/pot`) and an earlier
draft (`src/poefx`). A small monad (`PyomoMonad`) chains model construction
to the solver.

This project models:

- **The graph builders** (`PotBuild`, `DraftBuild`, on top of
  `MultiDiGraph`). Each order row becomes one edge of a networkx
  `MultiDiGraph`. Keys are assigned as networkx assigns them: the number of
  earlier edges between the same two nodes.
  - The current builder orients edges `want → have` and sets:
    - `a = 1/ratio`;
    - capacity `round(stock*ratio)`, using Python's round-half-even;
    - `partials = gcd(capacity, stock)`;
    - `min_inc_sz = capacity/partials`.
    A non-integral stock aborts the build.
  - The draft builder orients edges `have → want` and sets:
    - `a = ratio`;
    - capacity `stock/ratio`;
    - `min_inc = int(stock)/gcd(int(ratio*stock), int(stock))`.
    Python's `int` truncates toward zero, and a zero gcd raises `ZeroDivisionError`.
- **The MILP's constraints** (`PotModel`, `DraftModel`, `Flow`). They are
  read as a feasibility predicate over a candidate assignment of every decision
  variable (`v`, `x`, `b`, `p`, `lin_bp`, `z`, `g`). Solving is "some
  assignment satisfying `Feasible`". The lemmas hold for every such assignment,
  so they hold for whatever the solver returns.
- **The trade ledger `report`** (`PotReport`). It filters and maps the
  assignment: one row per (round, edge) whose flow exceeds 1e-6. Rows come in
  loop order: rounds ascending, then edges in networkx iteration order
  (`MultiDiGraph.EdgeOrder`).
- **`PyomoMonad`** (`Monad`): `bind`, `__call__` and `>>`.

Modelling choices:

- Goods are strings.
- Prices, ratios and holdings are exact `real`s; counts are `int`s.
- Python `round` is `Numbers.RoundHalfEven`, and `int(float)` is `Numbers.Trunc`.
- The sums inside the constraints are taken over the edge list in insertion
  order. They are real sums, so the order networkx lists the edges in does
  not change them.
- In the current version, `min_inc_sz` is `capacity / partials` computed with
  numpy. When both capacity and stock are 0 this is `0/0`, which is NaN, not
  an exception. Such an edge carries `minIncSz == None`. The model treats its
  `integral_trades` constraint as unsatisfiable, because NaN equals nothing.
- `optimal_conversion` indexes `v[to_currency, timesteps]` in its objective.
  This raises a `KeyError` when the target is not a node of the graph or the
  horizon is negative. Both versions model this as `Err(UnknownIndex)`.

The code orients an order from what the taker gives up (`want`) to what the
taker receives (`have`). So with the single order "100 X offered for Y at
ratio 2", a holder of 10 X cannot end with any Y (`PotModel.OneOrderYieldsNothing`).
The code is followed here. The draft orients every edge the other way
(`DraftBuild.VersionsReverseEachOther`).

## Model

| member | source | states |
|---|---|---|
| `Numbers.RoundHalfEven` | src/pot/optimize.py:30 | Python's `round` gives an integer within 1/2 of its argument, the argument itself when that is whole, and the even neighbour on a tie |
| `Numbers.RoundIsNearest` | src/pot/optimize.py:30 | the rounded capacity is at least as close to `stock*ratio` as any other integer |
| `Numbers.Trunc` | src/poefx/optimize.py:30-31 | `int(...)` truncates toward zero: non-negative inputs go to the floor and negative ones to the ceiling; whole inputs are unchanged |
| `Numbers.GcdIsGreatestCommonDivisor` | src/pot/optimize.py:50 | `gcd` divides both arguments, every common divisor divides it, and it is 0 exactly when both arguments are 0 |
| `Numbers.ExactQuotient` | src/pot/optimize.py:53 | dividing a multiple of a nonzero `d` by `d` is exact: the real quotient is the integer quotient |
| `MultiDiGraph.AddEdge` | src/pot/optimize.py:55-63 | `add_edge` without a key appends an edge between the given nodes with the given attributes and leaves earlier edges untouched; the new key is the next free key for that pair, so the new id is fresh |
| `MultiDiGraph.KeysMakeIdsDistinct` | src/pot/optimize.py:55-63 | with networkx's key assignment, parallel edges between the same goods get distinct `(src, dst, key)` ids and none is lost |
| `MultiDiGraph.Parallel` | src/pot/optimize.py:90 | the edges between one ordered pair of nodes, listed exactly once each in ascending key order |
| `MultiDiGraph.EdgeOrder` | src/pot/optimize.py:90 | definition: the order of `list(order_book_graph.edges)` on a networkx MultiDiGraph, as positions into the insertion-ordered edge list: nodes in first-insertion order, each node's successors in insertion order, each pair's keys ascending; `EdgeOrderIsPermutation` proves it lists every edge once |
| `MultiDiGraph.EdgeOrderIsPermutation` | src/pot/optimize.py:90 | networkx's edge iteration order (node insertion order, then successor order, then key) lists every edge of the graph exactly once |
| `MultiDiGraph.Build` | src/pot/optimize.py:16-65 | the builder loop returns a graph iff every row is accepted, and otherwise fails with the first failing row's error; the graph has one edge per row, in row order, carrying that row's endpoints and attributes, with networkx keys |
| `PotBuild.EdgeFor` | src/pot/optimize.py:39-53 | definition: the loop body once the capacity is known, namely the want-side check on that capacity, then the stock-side check, then the gcd grid; `OrderEdge` feeds it the rounded capacity and `OrderEdgeStrict` the unrounded whole total |
| `PotBuild.OrderEdge` | src/pot/optimize.py:21-53 | an order is accepted iff its stock is whole, and is otherwise rejected as a non-integral stock; the capacity is `stock*ratio` rounded (exact when whole); `partials` is the greatest common divisor of capacity and stock, and `min_inc_sz * partials == capacity` |
| `PotBuild.Grid` | src/pot/optimize.py:49-53 | `partials = gcd(total, stock)` divides both and is their greatest common divisor; when it is nonzero, `min_inc_sz = total/partials` exactly; when both are 0 the increment is NaN |
| `PotBuild.ToDigraph` | src/pot/optimize.py:16-65 | definition: `order_book_to_digraph`, one `OrderEdge` per row folded through the networkx builder; characterised by `ToDigraphShape`, `ToDigraphFailsOnlyOnStock` and `ToDigraphGrid` |
| `PotBuild.ToDigraphShape` | src/pot/optimize.py:18-23 | each order adds exactly one edge from `want` to `have` with `a = 1/ratio` and its gold cost; parallel edges are kept under distinct ids |
| `PotBuild.ToDigraphFailsOnlyOnStock` | src/pot/optimize.py:39-47 | the build fails iff some order's stock is not whole, always with the stock-side error; the want-side error is never raised |
| `PotBuild.ToDigraphGrid` | src/pot/optimize.py:49-53 | every built edge has a consistent partial-fill grid with `partials = gcd(capacity, stock)` |
| `PotBuild.RoundingHidesFractionalTotal` | src/pot/optimize.py:30-42 | example: the order stock 3 at ratio 1/2 has total 1.5, yet the build accepts it with capacity 2 |
| `PotBuild.OrderEdgeStrict` | src/pot/optimize.py:34-47 | with the check run on the unrounded total, an order is accepted iff its total and its stock are whole; a fractional total raises the want-side error; the capacity is the total exactly |
| `PotBuild.ToDigraphStrict` | src/pot/optimize.py:16-65 | the corrected builder returns a graph iff every order's total and stock are whole, and then every capacity equals `stock*ratio` |
| `PotBuild.StrictRejectsFractionalTotal` | src/pot/optimize.py:39-42 | example: the corrected builder rejects the stock-3, ratio-1/2 order with the want-side error |
| `PotBuild.StrictEdgeAgrees` | src/pot/optimize.py:30-47 | for an order whose total is whole, rounding is the identity and both builders produce the same edge or the same error |
| `PotBuild.StrictAgreesOnWholeTotals` | src/pot/optimize.py:16-65 | on order books whose totals are all whole, the corrected builder and the builder as written produce the same result |
| `PotModel.OptimalConversion` | src/pot/optimize.py:78-139 | a non-integral starting amount raises the integrality error before anything is built; an unknown target or a negative horizon fails at the objective's index; otherwise the model carries exactly the given graph, portfolio, target, horizon, window and gold |
| `PotModel.Feasible` | src/pot/optimize.py:93-210 | definition: the constraint set of `optimal_conversion`, namely the variable domains, the `b*p` linearisation, `integral_trades`, `total_traded`/`edge_capacity`, `initial`/`initial_gold`, `no_shorting`, `balances`, `gold_balances` and `window_size` |
| `PotModel.Domains` | src/pot/optimize.py:93-111 | definition: `v`, `x`, `z`, `g` non-negative reals; `b` binary; `p` and `lin_bp` non-negative integers |
| `PotModel.Linearized` | src/pot/optimize.py:141-156 | definition: `upper_bd_prod`, `lower_bd_prod`, `lin_bp_lower` and `lin_bp_upper` for every edge and round; `LinearizationExact` shows they force `lin_bp == b*p` |
| `PotModel.IntegralTrades` | src/pot/optimize.py:158-161 | definition: `x == lin_bp * min_inc_sz` for every edge and round; an edge whose increment is NaN (from 0/0) admits no value |
| `PotModel.WithinCapacity` | src/pot/optimize.py:163-170 | definition: `z` is the flow summed over rounds 1..T and is at most the capacity |
| `PotModel.Initial` | src/pot/optimize.py:172-181 | definition: each node starts with its portfolio amount, or 0 when it is not in the portfolio, and gold starts at `init_gold` |
| `PotModel.WindowRespected` | src/pot/optimize.py:206-210 | definition: in each round at most `window` trade indicators are 1 |
| `PotModel.Wealth` | src/pot/optimize.py:137-139 | definition: the objective `v[to_currency, timesteps]` |
| `PotModel.LinearizationExact` | src/pot/optimize.py:141-156 | for binary `b` and `p >= 0`, the four inequalities hold iff `lin_bp == b*p` and `p <= partials` |
| `PotModel.EdgeRound` | src/pot/optimize.py:141-161 | in a feasible assignment, one edge in one round carries `lin_bp = b*p` with `0 <= p <= partials` and flow `lin_bp * min_inc_sz`, and no feasible edge has a NaN increment |
| `PotModel.FeasibleFlowIsWholeFills` | src/pot/optimize.py:141-161 | every round's flow on every edge is `b*p` whole increments, and never exceeds the capacity of a consistent grid |
| `PotModel.NoOrderOverFilled` | src/pot/optimize.py:164-170 | the flow summed over all rounds on an edge never exceeds the order's capacity |
| `PotModel.GoldIsOnlySpent` | src/pot/optimize.py:199-204 | with non-negative gold costs, gold never increases, and the total gold charged is bounded by the starting gold |
| `PotModel.NothingTouched` | src/pot/optimize.py:207-210 | if the non-negative trade indicators of a round sum to at most 0, every one of them is 0; its induction helper `TouchedNonNegative` shows the count of touched edges is never negative |
| `PotModel.UnfilledMeansFrozen` | src/pot/optimize.py:141-197 | if no edge is both chosen and filled in any round, all flows vanish and every node ends with its starting holding |
| `PotModel.WindowZeroForbidsTrading` | src/pot/optimize.py:173-210 | with a window of 0, every indicator, every `lin_bp` and every flow is 0, and every node ends with its portfolio amount or 0; the objective is the target's starting amount |
| `PotModel.NoGoldForbidsTrading` | src/pot/optimize.py:179-204 | with no starting gold and positive gold costs, no order is filled, nothing flows and every holding stays put |
| `PotModel.GoldStaysZero` | src/pot/optimize.py:179-204 | when every gold cost is non-negative, starting with no gold keeps the gold at 0 in every round and nothing is charged |
| `PotModel.NoShortingKeepsHoldings` | src/pot/optimize.py:183-197 | when every multiplier `a` is non-negative (for a built graph: every ratio positive), no-shorting and the balance equation make every holding after a round at least the converted flow that arrived in that round, which is non-negative |
| `PotModel.RatesNonNegativeIffPositiveRatios` | src/pot/optimize.py:26-58 | a successfully built graph has every multiplier `a = 1/ratio` non-negative iff every order's ratio is positive |
| `PotModel.UnreachableTargetNeverGrows` | src/pot/optimize.py:137-197 | if no edge leads into the target, the objective is at most the target's starting amount |
| `PotModel.StrandedTargetEndsEmpty` | src/pot/optimize.py:137-197 | if no edge leads into the target and the portfolio holds none of it, every feasible assignment ends with exactly 0 of the target |
| `PotModel.OneOrderGraph` | src/pot/optimize.py:16-65 | example: one order, 100 X offered for Y at ratio 2, becomes the single edge Y→X with `a = 1/2`, capacity 200, 100 partials of 2 |
| `PotModel.OneOrderShape` | src/pot/optimize.py:78-139 | example: the model built on that one-order book is well formed and holds the single edge Y→X, target Y and the portfolio of 10 X |
| `PotModel.OneOrderYieldsNothing` | src/pot/optimize.py:137-197 | example (one fixed order book, every horizon, window and gold): starting from 10 X with that order, every feasible assignment ends with 0 Y, for any horizon, window and gold |
| `Flow.NoShorting` | src/pot/optimize.py:183-187 | definition: the holding before a round covers everything sent out along the node's outgoing edges in that round |
| `Flow.Balances` | src/pot/optimize.py:189-197 | definition: the holding after a round is the one before, plus incoming flows times their `a`, minus outgoing flows |
| `Flow.GoldBalances` | src/pot/optimize.py:199-204 | definition: gold after a round is gold before minus the sum of `p * gold_cost` over all edges |
| `Flow.IdleSumsVanish` | src/pot/optimize.py:189-197 | in a round with no flow, a node's incoming and outgoing sums are 0 |
| `Flow.InFlowNonNegative` | src/pot/optimize.py:193-195 | with non-negative flows and multipliers, the incoming sum is non-negative |
| `Flow.OutFlowNonNegative` | src/pot/optimize.py:196 | with non-negative flows, the outgoing sum is non-negative |
| `Flow.NoIncomingNoInFlow` | src/pot/optimize.py:191-195 | a node no edge enters receives nothing |
| `Flow.SilentOutFlow` | src/pot/optimize.py:186-187 | if a node's outgoing sum is at most 0, each of its outgoing flows is 0 |
| `Flow.GoldSpentNonNegative` | src/pot/optimize.py:201-203 | with non-negative fills and costs, the gold charged in a round is non-negative |
| `Flow.FreeRoundFillsNothing` | src/pot/optimize.py:201-204 | when every cost is positive and nothing is charged in a round, no order is filled that round |
| `Flow.GoldNeverIncreases` | src/pot/optimize.py:199-204 | the gold balance with non-negative costs makes gold non-increasing round by round |
| `Flow.GoldLedger` | src/pot/optimize.py:199-204 | gold after round `t` is the starting gold minus everything charged in rounds 1..t; so non-negative gold bounds the total charge |
| `Flow.IdleRoundsFreeze` | src/pot/optimize.py:189-197 | if nothing flows in any round, every holding stays at its starting value |
| `Flow.NoIncomingNeverGrows` | src/pot/optimize.py:189-197 | a node no edge enters never holds more than it started with |
| `Flow.HoldingsCoverInFlow` | src/pot/optimize.py:183-197 | when every multiplier `a` is non-negative, no-shorting and the balance equation make each holding at least what flowed in that round, which is non-negative |
| `Flow.NothingFromNothing` | src/pot/optimize.py:173-197 | when every node starts empty, every holding stays 0 and no flow is possible |
| `PotReport.Trades` | src/pot/optimize.py:215-222 | definition: the ledger rows built by the nested loop over rounds and edges in iteration order; characterised by `TradesSound`, `TradesComplete` and `TradesOrdered` |
| `PotReport.Report` | src/pot/optimize.py:214-224 | definition: `report`, the objective value paired with the ledger; characterised by `ReportIsFilteredLedger` |
| `PotReport.SelectedAt` | src/pot/optimize.py:217-222 | one round of the loop selects only edges whose flow exceeds the tolerance |
| `PotReport.SelectedAtComplete` | src/pot/optimize.py:217-222 | every edge whose flow exceeds the tolerance in a round is selected in that round |
| `PotReport.SelectedAtAscending` | src/pot/optimize.py:217 | within a round, selected edges come in iteration order |
| `PotReport.SelectedFrom` | src/pot/optimize.py:216-222 | the loop over rounds selects only in-range rounds and reported edges |
| `PotReport.SelectedFromOrdered` | src/pot/optimize.py:216-217 | the selection is sorted by round, then by edge iteration order |
| `PotReport.SelectedFromComplete` | src/pot/optimize.py:216-222 | every (round, edge) pair over the tolerance is selected |
| `PotReport.TradesSound` | src/pot/optimize.py:219-222 | every ledger row lies in rounds 1..T, has `have_qty > 1e-6`, and is some edge's record: its source, its target, the flow and the flow times `a` |
| `PotReport.TradesComplete` | src/pot/optimize.py:216-222 | every (edge, round) whose flow exceeds 1e-6 has its row in the ledger |
| `PotReport.TradeRecorded` | src/pot/optimize.py:216-222 | a single edge and round, 1 <= t <= rounds, whose flow exceeds 1e-6 has its row in the ledger |
| `PotReport.TradesOrdered` | src/pot/optimize.py:216-222 | ledger rows are ordered by round and, within a round, by the edge's position in networkx iteration order |
| `PotReport.ReportIsFilteredLedger` | src/pot/optimize.py:214-224 | `report` returns the target's final holding and exactly the over-tolerance trades, in round order |
| `DraftBuild.DraftOrderEdge` | src/poefx/optimize.py:19-36 | the draft row fails with `ZeroDivisionError` iff both truncated sides are 0; otherwise `capacity * ratio == stock`, and `min_inc * gcd == int(stock)` with a whole `min_inc` and a gcd dividing `int(ratio*stock)` |
| `DraftBuild.DraftToDigraph` | src/poefx/optimize.py:13-47 | definition: the draft `order_book_to_digraph`, one `DraftOrderEdge` per row folded through the networkx builder; characterised by `DraftToDigraphShape` and `DraftFailsOnlyOnEmptyGrid` |
| `DraftBuild.DraftToDigraphShape` | src/poefx/optimize.py:13-47 | each order adds one edge from `have` to `want` with `a = ratio`, in row order, under distinct ids |
| `DraftBuild.DraftFailsOnlyOnEmptyGrid` | src/poefx/optimize.py:30-36 | the draft build fails iff some order truncates to zero on both sides, and then with the division error |
| `DraftBuild.DraftAcceptsFractionalStock` | src/poefx/optimize.py:26-36 | example: a fractional stock (2.5 at ratio 2) is accepted: capacity 1.25, unrounded, and `min_inc` 2 from the truncated stock |
| `DraftBuild.VersionsReverseEachOther` | src/poefx/optimize.py:16-18 | where both versions accept an order, the draft edge reverses the current one and their multipliers are reciprocal |
| `DraftModel.DraftOptimalConversion` | src/poefx/optimize.py:49-96 | the draft model fails only at the objective's index, for an unknown target or a negative horizon, and otherwise carries exactly its arguments |
| `DraftModel.DraftFeasible` | src/poefx/optimize.py:62-140 | definition: the draft constraint set, namely the domains, `integral_trades` with `p` alone, `total_traded`/`edge_capacity`, `initial` funding only `from_currency`, `initial_gold`, `no_shorting`, `balances` and `gold_balances`; no indicator and no window |
| `DraftModel.DraftFlowIsWholeFills` | src/poefx/optimize.py:98-108 | each draft flow is `p` whole increments with `p >= 0`, with no indicator gating it, and no order is over-filled over the horizon |
| `DraftModel.DraftOnlySourceFunded` | src/poefx/optimize.py:110-114 | only `from_currency` starts with `from_currency_qty`; every other node starts at 0 |
| `DraftModel.DraftUnknownSourceYieldsNothing` | src/poefx/optimize.py:110-133 | if the source currency is not in the graph, nothing ever flows and the objective is 0 |
| `DraftModel.DraftNoShortingKeepsHoldings` | src/poefx/optimize.py:120-133 | when every multiplier `a` is non-negative (for a built graph: every ratio positive), no-shorting and the balance equation make each holding cover that round's incoming flow, which is non-negative |
| `DraftModel.DraftRatesNonNegativeIffPositiveRatios` | src/poefx/optimize.py:22-41 | a successfully built draft graph has every multiplier `a = ratio` non-negative iff every order's ratio is positive |
| `DraftModel.DraftGoldIsOnlySpent` | src/poefx/optimize.py:135-140 | with non-negative costs, draft gold never increases and the total charge is bounded by the starting gold |
| `Monad.Bind` | src/pot/monad.py:30-47 | definition: `bind`, where a set status short-circuits, a returning function supplies the new value, and a raising one sets the status; `>>` (`Monad.Shift`, src/pot/monad.py:60-68) is an alias for it |
| `Monad.Call` | src/pot/monad.py:49-58 | definition: `__call__`, which applies the effect to the value if there is one and otherwise returns the value |
| `Monad.Chain` | src/pot/monad.py:60-68 | definition: a pipeline `m >> f1 >> ... >> fn`, folding `>>` left to right |
| `Monad.BindSkipsWhenFailed` | src/pot/monad.py:38-39 | on a monad with a status, `bind` gives the same result for any function, that is it never calls it; the value is dropped and the effect and status are kept |
| `Monad.BindOnSuccess` | src/pot/monad.py:41-43 | when the function returns, the new value is its result, the effect is kept and the status stays unset |
| `Monad.BindOnRaise` | src/pot/monad.py:45-47 | when the function raises, the status becomes the exception, the value is dropped and the effect is replaced by one that prints the old status and yields nothing |
| `Monad.FailureIsSticky` | src/pot/monad.py:38-39 | once failed, any chain of further binds keeps the original status and effect, and leaves no value |
| `Monad.RaiseThenChainCallsNothing` | src/pot/monad.py:38-58 | after a raising step, however the chain continues, its status is that exception and calling it yields nothing |
| `Monad.CallRunsEffect` | src/pot/monad.py:49-58 | `__call__` returns `effect(value)` when there is an effect and `value` otherwise |
| `Monad.ChainOfSuccesses` | src/pot/monad.py:30-68 | a chain ends without a status iff every step returns; and then its value is the steps applied in turn, with the effect kept |

## Left out

- The MILP solver and `Solver` (src/pot/monad.py:70-81) are a foreign
  Pyomo/HiGHS call plus `model.clone()`. Solving is modelled only as "some
  assignment satisfying `Feasible`". Optimality, the search for the best
  assignment, is not modelled.
- Pyomo, pandas and networkx plumbing is replaced by sequences, maps and
  total functions. This covers `ConcreteModel`, the `Param` decorators,
  `RangeSet` and DataFrame indexing.
- Floating point is not modelled; ratios, `a`, capacities and flows are exact reals.
  - The 1e-6 tolerance is an exact constant.
  - `round` is exact round-half-even on the real product, so a product that
    floating point would miss by one ulp is not modelled.
- `Numbers.Gcd`: works on unbounded integers. `np.gcd` at src/pot/optimize.py:50
  works on numpy's 64-bit integers, and so does the division producing
  `min_inc_sz` at :53. Their overflow range is not modelled; neither is
  Python's `math.gcd` limit at src/poefx/optimize.py:34, which has none.
- `PotBuild.ToDigraph`, `DraftBuild.DraftToDigraph`: require every ratio to
  be nonzero. The source divides by the ratio; numpy gives `inf` for that,
  not an exception, and infinities are not modelled.
- `PotModel.IntegralTrades`: an edge whose `min_inc_sz` is NaN (an order
  with stock and capacity both 0) is treated as admitting no assignment. What
  Pyomo or the solver does with a NaN coefficient is not modelled.
- The `print` calls in `bind` and in the replacement effect are not modelled.
  The replacement effect is recorded with the status it would print.
- Values and exceptions flowing through `PyomoMonad` are abstract type
  parameters. Only exceptions raised by the bound function are modelled.
- The name `NonIntegerQuantity` imported at src/pot/optimize.py:13 is not
  defined in src/pot/exceptions.py, which defines `NonIntegerStock` and
  `NonIntegerTotal`. As written, the module fails to import. The model
  assumes one integrality error, tagged with the quantity that failed.
- The draft's `report` (src/poefx/optimize.py:144-145) returns the objective
  alone. It is `DraftModel.DraftWealth` and has no contract of its own.
- The `__main__` block of src/poefx/optimize.py, main.py (argument parsing,
  CSV reading, printing) and tests/test.py (a script needing a CSV file and a
  solver) are not modelled. main.py calls `optimal_conversion` with the
  draft's positional signature, and its `sol is None` test can never hold.
- src/pot/exceptions.py only declares exception classes. It is not part of
  this model beyond the `Market.Error` variants.
- The `DataFrame` returned by `report` is a sequence of `Trade` records.

## Findings

| source | as written | input that shows it | evidently intended | confidence | as-written member | corrected member |
|---|---|---|---|---|---|---|
| src/pot/optimize.py:30-42 | the want-side integrality check runs on `round(stock * ratio)`, which is always whole, so it can never fail and a fractional total is silently rounded | the order `stock = 3`, `ratio = 0.5`: total 1.5, accepted with capacity 2 (round-half-even) | reject orders whose total `stock * ratio` is not whole, as the check's message and the `NonIntegerTotal` exception say | not executed | `PotBuild.RoundingHidesFractionalTotal` | `PotBuild.ToDigraphStrict` |

`PotBuild.StrictRejectsFractionalTotal` shows that the corrected builder rejects
that order. `PotBuild.StrictAgreesOnWholeTotals` shows that the two builders
agree on every order book whose totals are whole. The constraint model takes
a built graph as input, so its lemmas apply to the output of either builder.
