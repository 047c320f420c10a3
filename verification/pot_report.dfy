/** The ledger `report` extracts from a solved model: for every round, then
    every edge in `graph.edges` order, one trade record whenever the flow
    exceeds the 1e-6 noise tolerance. */
module PotReport {

  import opened MultiDiGraph
  import opened PotBuild
  import opened PotModel

  /** Flows at or below this are solver noise and not reported. */
  const Tolerance: real := 0.000001

  /** One ledger row. `have` and `want` name the edge's source and target:
      the good given up and the good received. */
  datatype Trade = Trade(timestep: int, have: Good, want: Good, haveQty: real, wantQty: real)

  /** The row edge `e` produces at round `t`: the amount given up and that
      amount times `a`. */
  function TradeOf(e: Edge<PotAttrs>, t: int, x: (EdgeId, int) -> real): Trade {
    Trade(t, e.id.src, e.id.dst, x(e.id, t), x(e.id, t) * e.a)
  }

  predicate Reported(e: Edge<PotAttrs>, t: int, x: (EdgeId, int) -> real) {
    x(e.id, t) > Tolerance
  }

  /** The (round, position) pairs one round of the loop reports, visiting
      the positions `lo` onwards of the iteration order `order`; each
      position names the edge `es[order[position]]`. */
  function SelectedAt(es: seq<Edge<PotAttrs>>, order: seq<nat>, t: int, x: (EdgeId, int) -> real, lo: nat): (r: seq<(int, nat)>)
    requires lo <= |order|
    requires forall k :: 0 <= k < |order| ==> order[k] < |es|
    ensures forall k :: 0 <= k < |r| ==> r[k].0 == t && lo <= r[k].1 < |order| && Reported(es[order[r[k].1]], t, x)
    decreases |order| - lo
  {
    if lo == |order| then []
    else
      var rest := SelectedAt(es, order, t, x, lo + 1);
      if Reported(es[order[lo]], t, x) then
        var r := [(t, lo)] + rest;
        assert forall k :: 1 <= k < |r| ==> r[k] == rest[k - 1];
        r
      else rest
  }

  /** Every reported position from `lo` on is selected. */
  lemma {:induction false} SelectedAtComplete(es: seq<Edge<PotAttrs>>, order: seq<nat>, t: int, x: (EdgeId, int) -> real, lo: nat, j: nat)
    requires lo <= j < |order|
    requires forall k :: 0 <= k < |order| ==> order[k] < |es|
    requires Reported(es[order[j]], t, x)
    ensures (t, j) in SelectedAt(es, order, t, x, lo)
    decreases j - lo
  {
    var r := SelectedAt(es, order, t, x, lo);
    if lo == j {
      assert r[0] == (t, j);
    } else {
      SelectedAtComplete(es, order, t, x, lo + 1, j);
      var rest := SelectedAt(es, order, t, x, lo + 1);
      if Reported(es[order[lo]], t, x) {
        assert r == [(t, lo)] + rest;
      }
    }
  }

  /** Pairs sorted by round, then by position in the iteration order. */
  predicate LoopOrdered(r: seq<(int, nat)>) {
    forall k, l :: 0 <= k < l < |r| ==> r[k].0 < r[l].0 || (r[k].0 == r[l].0 && r[k].1 < r[l].1)
  }

  /** One round reports its edges in iteration order. */
  lemma {:induction false} SelectedAtAscending(es: seq<Edge<PotAttrs>>, order: seq<nat>, t: int, x: (EdgeId, int) -> real, lo: nat)
    requires lo <= |order|
    requires forall k :: 0 <= k < |order| ==> order[k] < |es|
    ensures LoopOrdered(SelectedAt(es, order, t, x, lo))
    decreases |order| - lo
  {
    if lo < |order| {
      SelectedAtAscending(es, order, t, x, lo + 1);
      var rest := SelectedAt(es, order, t, x, lo + 1);
      var r := SelectedAt(es, order, t, x, lo);
      if Reported(es[order[lo]], t, x) {
        assert r == [(t, lo)] + rest;
        forall k, l | 0 <= k < l < |r|
          ensures r[k].0 == r[l].0 && r[k].1 < r[l].1
        {
          assert r[l] == rest[l - 1];
          if k == 0 {
            assert r[k] == (t, lo);
          } else {
            assert r[k] == rest[k - 1];
          }
        }
      }
    }
  }

  /** Rounds `t` through `rounds`, each over the whole edge iteration order. */
  function SelectedFrom(es: seq<Edge<PotAttrs>>, t: int, rounds: int, x: (EdgeId, int) -> real): (r: seq<(int, nat)>)
    ensures forall k :: 0 <= k < |r| ==>
      && t <= r[k].0 <= rounds && r[k].1 < |EdgeOrder(es)| && EdgeOrder(es)[r[k].1] < |es|
      && Reported(es[EdgeOrder(es)[r[k].1]], r[k].0, x)
    decreases rounds - t
  {
    if t > rounds then []
    else
      EdgeOrderIsPermutation(es);
      var now := SelectedAt(es, EdgeOrder(es), t, x, 0);
      var later := SelectedFrom(es, t + 1, rounds, x);
      var r := now + later;
      assert forall k :: 0 <= k < |later| ==> r[|now| + k] == later[k];
      r
  }

  /** The whole loop reports in round order, and within a round in edge
      iteration order. */
  lemma {:induction false} SelectedFromOrdered(es: seq<Edge<PotAttrs>>, t: int, rounds: int, x: (EdgeId, int) -> real)
    ensures LoopOrdered(SelectedFrom(es, t, rounds, x))
    decreases rounds - t
  {
    if t <= rounds {
      EdgeOrderIsPermutation(es);
      var now := SelectedAt(es, EdgeOrder(es), t, x, 0);
      var later := SelectedFrom(es, t + 1, rounds, x);
      var r := SelectedFrom(es, t, rounds, x);
      assert r == now + later;
      SelectedAtAscending(es, EdgeOrder(es), t, x, 0);
      SelectedFromOrdered(es, t + 1, rounds, x);
      forall k, l | 0 <= k < l < |r|
        ensures r[k].0 < r[l].0 || (r[k].0 == r[l].0 && r[k].1 < r[l].1)
      {
        if l < |now| {
          assert r[k] == now[k] && r[l] == now[l];
        } else if k >= |now| {
          assert r[k] == later[k - |now|] && r[l] == later[l - |now|];
        } else {
          assert r[k] == now[k] && r[l] == later[l - |now|];
        }
      }
    }
  }

  /** A position reported at round `u` is selected by every loop that
      covers round `u`. */
  lemma {:induction false} SelectedFromComplete(es: seq<Edge<PotAttrs>>, t: int, rounds: int, x: (EdgeId, int) -> real,
                                                u: int, j: nat)
    requires t <= u <= rounds
    requires j < |EdgeOrder(es)| && EdgeOrder(es)[j] < |es| && Reported(es[EdgeOrder(es)[j]], u, x)
    ensures (u, j) in SelectedFrom(es, t, rounds, x)
    decreases rounds - t
  {
    EdgeOrderIsPermutation(es);
    var now := SelectedAt(es, EdgeOrder(es), t, x, 0);
    var later := SelectedFrom(es, t + 1, rounds, x);
    assert SelectedFrom(es, t, rounds, x) == now + later;
    if u == t {
      SelectedAtComplete(es, EdgeOrder(es), t, x, 0, j);
    } else {
      SelectedFromComplete(es, t + 1, rounds, x, u, j);
    }
  }

  /** The ledger rows, in loop order. */
  function Trades(es: seq<Edge<PotAttrs>>, rounds: int, x: (EdgeId, int) -> real): seq<Trade> {
    var sel := SelectedFrom(es, 1, rounds, x);
    var order := EdgeOrder(es);
    seq(|sel|, k requires 0 <= k < |sel| => TradeOf(es[order[sel[k].1]], sel[k].0, x))
  }

  /** `report`: the objective value and the ledger. */
  function Report(m: Milp, s: Assignment): (real, seq<Trade>) {
    (Wealth(m, s), Trades(m.graph.edges, m.rounds, s.x))
  }

  lemma TradesSound(es: seq<Edge<PotAttrs>>, rounds: int, x: (EdgeId, int) -> real)
    ensures var trades := Trades(es, rounds, x);
      forall k :: 0 <= k < |trades| ==>
        && 1 <= trades[k].timestep <= rounds
        && trades[k].haveQty > Tolerance
        && exists i :: 0 <= i < |es| && trades[k] == TradeOf(es[i], trades[k].timestep, x)
  {
    var sel := SelectedFrom(es, 1, rounds, x);
    var trades := Trades(es, rounds, x);
    forall k | 0 <= k < |trades|
      ensures 1 <= trades[k].timestep <= rounds && trades[k].haveQty > Tolerance
      ensures exists i :: 0 <= i < |es| && trades[k] == TradeOf(es[i], trades[k].timestep, x)
    {
      assert trades[k] == TradeOf(es[EdgeOrder(es)[sel[k].1]], sel[k].0, x);
    }
  }

  lemma TradesComplete(es: seq<Edge<PotAttrs>>, rounds: int, x: (EdgeId, int) -> real)
    ensures forall i, t :: 0 <= i < |es| && 1 <= t <= rounds && x(es[i].id, t) > Tolerance ==>
      TradeOf(es[i], t, x) in Trades(es, rounds, x)
  {
    forall i, t | 0 <= i < |es| && 1 <= t <= rounds && x(es[i].id, t) > Tolerance
      ensures TradeOf(es[i], t, x) in Trades(es, rounds, x)
    {
      TradeRecorded(es, rounds, x, i, t);
    }
  }

  /** One (edge, round) pair above the tolerance has its row. */
  lemma TradeRecorded(es: seq<Edge<PotAttrs>>, rounds: int, x: (EdgeId, int) -> real, i: int, t: int)
    requires 0 <= i < |es| && 1 <= t <= rounds && x(es[i].id, t) > Tolerance
    ensures TradeOf(es[i], t, x) in Trades(es, rounds, x)
  {
    var sel := SelectedFrom(es, 1, rounds, x);
    var order := EdgeOrder(es);
    EdgeOrderIsPermutation(es);
    assert i in order;
    var j :| 0 <= j < |order| && order[j] == i;
    SelectedFromComplete(es, 1, rounds, x, t, j);
    var k :| 0 <= k < |sel| && sel[k] == (t, j);
    assert Trades(es, rounds, x)[k] == TradeOf(es[i], t, x);
  }

  /** Rows come in loop order: by round, and within a round by the
      position of their edge in `graph.edges` iteration order. */
  lemma TradesOrdered(es: seq<Edge<PotAttrs>>, rounds: int, x: (EdgeId, int) -> real)
    ensures var trades := Trades(es, rounds, x);
      forall k, l :: 0 <= k < l < |trades| ==> trades[k].timestep <= trades[l].timestep
    ensures var sel, trades := SelectedFrom(es, 1, rounds, x), Trades(es, rounds, x);
      && |trades| == |sel|
      && (forall k :: 0 <= k < |sel| ==> trades[k] == TradeOf(es[EdgeOrder(es)[sel[k].1]], sel[k].0, x))
      && LoopOrdered(sel)
  {
    var sel := SelectedFrom(es, 1, rounds, x);
    var trades := Trades(es, rounds, x);
    SelectedFromOrdered(es, 1, rounds, x);
    assert forall k :: 0 <= k < |trades| ==> trades[k].timestep == sel[k].0;
  }

  /** The ledger lists exactly the (round, edge) pairs whose flow exceeds the
      tolerance: every row is such a pair, recording the amount given up and
      that amount times the edge's `a`, and every such pair has its row.
      Rows are ordered by round; the objective is the target's final
      holdings. */
  lemma ReportIsFilteredLedger(m: Milp, s: Assignment)
    ensures Report(m, s).0 == s.v(m.target, m.rounds)
    ensures var trades := Report(m, s).1;
      forall k :: 0 <= k < |trades| ==>
        && 1 <= trades[k].timestep <= m.rounds
        && trades[k].haveQty > Tolerance
        && exists i :: 0 <= i < |m.graph.edges| && trades[k] == TradeOf(m.graph.edges[i], trades[k].timestep, s.x)
    ensures var trades := Report(m, s).1;
      forall i, t :: 0 <= i < |m.graph.edges| && 1 <= t <= m.rounds && s.x(m.graph.edges[i].id, t) > Tolerance ==>
        TradeOf(m.graph.edges[i], t, s.x) in trades
    ensures var trades := Report(m, s).1;
      forall k, l :: 0 <= k < l < |trades| ==> trades[k].timestep <= trades[l].timestep
  {
    TradesSound(m.graph.edges, m.rounds, s.x);
    TradesComplete(m.graph.edges, m.rounds, s.x);
    TradesOrdered(m.graph.edges, m.rounds, s.x);
  }
}
