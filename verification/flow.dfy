/** The constraint families both versions of the model share, stated over a
    multigraph's edge sequence and a candidate assignment of the decision
    variables (holdings `v`, flows `x`, fill counts `p`, gold `g`). Rounds run
    from 1 to `rounds`; holdings and gold are also indexed by round 0. */
module Flow {

  import opened MultiDiGraph

  /** Total flow leaving `n` at round `t`: the no-shorting and balance
      constraints' `outgoing`. */
  function OutFlow<A>(es: seq<Edge<A>>, n: Good, t: int, x: (EdgeId, int) -> real): real {
    if |es| == 0 then 0.0
    else (if es[0].id.src == n then x(es[0].id, t) else 0.0) + OutFlow(es[1..], n, t, x)
  }

  /** Total converted flow arriving at `n` at round `t`: `incoming`, each
      edge's flow scaled by its multiplier `a`. */
  function InFlow<A>(es: seq<Edge<A>>, n: Good, t: int, x: (EdgeId, int) -> real): real {
    if |es| == 0 then 0.0
    else (if es[0].id.dst == n then x(es[0].id, t) * es[0].a else 0.0) + InFlow(es[1..], n, t, x)
  }

  /** Gold charged at round `t`: every edge's fill count times its gold cost. */
  function GoldSpent<A>(es: seq<Edge<A>>, t: int, p: (EdgeId, int) -> int): real {
    if |es| == 0 then 0.0
    else p(es[0].id, t) as real * es[0].goldCost + GoldSpent(es[1..], t, p)
  }

  /** Gold charged over rounds 1..t. */
  function GoldSpentUpTo<A>(es: seq<Edge<A>>, t: int, p: (EdgeId, int) -> int): real
    decreases t
  {
    if t <= 0 then 0.0 else GoldSpentUpTo(es, t - 1, p) + GoldSpent(es, t, p)
  }

  /** Amount traded on one edge over rounds 1..t: `total_traded`'s sum. */
  function Traded(x: (EdgeId, int) -> real, id: EdgeId, t: int): real
    decreases t
  {
    if t <= 0 then 0.0 else Traded(x, id, t - 1) + x(id, t)
  }

  predicate HoldingsNonNegative(nodes: set<Good>, rounds: int, v: (Good, int) -> real) {
    forall n, t :: n in nodes && 0 <= t <= rounds ==> v(n, t) >= 0.0
  }

  predicate FlowsNonNegative<A>(es: seq<Edge<A>>, rounds: int, x: (EdgeId, int) -> real) {
    forall i, t :: 0 <= i < |es| && 1 <= t <= rounds ==> x(es[i].id, t) >= 0.0
  }

  predicate FillsNonNegative<A>(es: seq<Edge<A>>, rounds: int, p: (EdgeId, int) -> int) {
    forall i, t :: 0 <= i < |es| && 1 <= t <= rounds ==> p(es[i].id, t) >= 0
  }

  predicate GoldNonNegative(rounds: int, g: int -> real) {
    forall t :: 0 <= t <= rounds ==> g(t) >= 0.0
  }

  /** Holdings carried into round `t` cover everything sent out at round `t`. */
  predicate NoShorting<A>(es: seq<Edge<A>>, rounds: int, v: (Good, int) -> real, x: (EdgeId, int) -> real) {
    forall n, t :: n in Nodes(es) && 1 <= t <= rounds ==> v(n, t - 1) >= OutFlow(es, n, t, x)
  }

  /** Holdings after round `t` are those before it plus converted inflow
      minus outflow. */
  predicate Balances<A>(es: seq<Edge<A>>, rounds: int, v: (Good, int) -> real, x: (EdgeId, int) -> real) {
    forall n, t :: n in Nodes(es) && 1 <= t <= rounds ==>
      v(n, t) == v(n, t - 1) + InFlow(es, n, t, x) - OutFlow(es, n, t, x)
  }

  /** Gold after round `t` is gold before it minus what round `t` charged. */
  predicate GoldBalances<A>(es: seq<Edge<A>>, rounds: int, g: int -> real, p: (EdgeId, int) -> int) {
    forall t :: 1 <= t <= rounds ==> g(t) == g(t - 1) - GoldSpent(es, t, p)
  }

  predicate CostsNonNegative<A>(es: seq<Edge<A>>) {
    forall i :: 0 <= i < |es| ==> es[i].goldCost >= 0.0
  }

  predicate RatesNonNegative<A>(es: seq<Edge<A>>) {
    forall i :: 0 <= i < |es| ==> es[i].a >= 0.0
  }

  /** No edge carries anything at round `t`. */
  predicate Idle<A>(es: seq<Edge<A>>, t: int, x: (EdgeId, int) -> real) {
    forall i :: 0 <= i < |es| ==> x(es[i].id, t) == 0.0
  }

  lemma {:induction false} IdleSumsVanish<A>(es: seq<Edge<A>>, n: Good, t: int, x: (EdgeId, int) -> real)
    requires Idle(es, t, x)
    ensures OutFlow(es, n, t, x) == 0.0 && InFlow(es, n, t, x) == 0.0
  {
    if |es| > 0 {
      IdleSumsVanish(es[1..], n, t, x);
    }
  }

  lemma {:induction false} InFlowNonNegative<A>(es: seq<Edge<A>>, n: Good, t: int, x: (EdgeId, int) -> real)
    requires RatesNonNegative(es)
    requires forall i :: 0 <= i < |es| ==> x(es[i].id, t) >= 0.0
    ensures InFlow(es, n, t, x) >= 0.0
  {
    if |es| > 0 {
      InFlowNonNegative(es[1..], n, t, x);
      assert x(es[0].id, t) * es[0].a >= 0.0;
    }
  }

  lemma {:induction false} NoIncomingNoInFlow<A>(es: seq<Edge<A>>, n: Good, t: int, x: (EdgeId, int) -> real)
    requires forall i :: 0 <= i < |es| ==> es[i].id.dst != n
    ensures InFlow(es, n, t, x) == 0.0
  {
    if |es| > 0 {
      NoIncomingNoInFlow(es[1..], n, t, x);
    }
  }

  lemma {:induction false} OutFlowNonNegative<A>(es: seq<Edge<A>>, n: Good, t: int, x: (EdgeId, int) -> real)
    requires forall i :: 0 <= i < |es| ==> x(es[i].id, t) >= 0.0
    ensures OutFlow(es, n, t, x) >= 0.0
  {
    if |es| > 0 {
      OutFlowNonNegative(es[1..], n, t, x);
    }
  }

  lemma {:induction false} GoldSpentNonNegative<A>(es: seq<Edge<A>>, t: int, p: (EdgeId, int) -> int)
    requires CostsNonNegative(es)
    requires forall i :: 0 <= i < |es| ==> p(es[i].id, t) >= 0
    ensures GoldSpent(es, t, p) >= 0.0
  {
    if |es| > 0 {
      GoldSpentNonNegative(es[1..], t, p);
      assert p(es[0].id, t) as real * es[0].goldCost >= 0.0;
    }
  }

  /** When every cost is positive, a round that charges nothing fills nothing. */
  lemma {:induction false} FreeRoundFillsNothing<A>(es: seq<Edge<A>>, t: int, p: (EdgeId, int) -> int)
    requires forall i :: 0 <= i < |es| ==> es[i].goldCost > 0.0
    requires forall i :: 0 <= i < |es| ==> p(es[i].id, t) >= 0
    requires GoldSpent(es, t, p) <= 0.0
    ensures forall i :: 0 <= i < |es| ==> p(es[i].id, t) == 0
  {
    if |es| > 0 {
      GoldSpentNonNegative(es[1..], t, p);
      ZeroProduct(p(es[0].id, t), es[0].goldCost);
      FreeRoundFillsNothing(es[1..], t, p);
      forall i | 1 <= i < |es|
        ensures p(es[i].id, t) == 0
      {
        assert es[i] == es[1..][i - 1];
      }
    }
  }

  lemma ZeroProduct(k: int, c: real)
    requires k >= 0 && c > 0.0 && k as real * c <= 0.0
    ensures k == 0
  {
  }

  /** Gold never increases from one round to the next. */
  lemma GoldNeverIncreases<A>(es: seq<Edge<A>>, rounds: int, g: int -> real, p: (EdgeId, int) -> int)
    requires GoldBalances(es, rounds, g, p) && FillsNonNegative(es, rounds, p) && CostsNonNegative(es)
    ensures forall t :: 1 <= t <= rounds ==> g(t) <= g(t - 1)
  {
    forall t | 1 <= t <= rounds
      ensures g(t) <= g(t - 1)
    {
      GoldSpentNonNegative(es, t, p);
    }
  }

  /** Gold after round `t` is the starting gold minus everything charged so
      far; as gold stays non-negative, the fills paid for over the whole
      horizon cost at most the starting gold. */
  lemma {:induction false} GoldLedger<A>(es: seq<Edge<A>>, rounds: int, g: int -> real, p: (EdgeId, int) -> int, t: int)
    requires GoldBalances(es, rounds, g, p)
    requires 0 <= t <= rounds
    ensures g(t) == g(0) - GoldSpentUpTo(es, t, p)
    ensures g(t) >= 0.0 ==> GoldSpentUpTo(es, t, p) <= g(0)
    decreases t
  {
    if t > 0 {
      GoldLedger(es, rounds, g, p, t - 1);
    }
  }

  /** Under the balance constraints, rounds in which nothing moves leave
      every node's holdings where they started. */
  lemma {:induction false} IdleRoundsFreeze<A>(es: seq<Edge<A>>, rounds: int, v: (Good, int) -> real,
                                              x: (EdgeId, int) -> real, n: Good, t: int)
    requires Balances(es, rounds, v, x)
    requires forall s :: 1 <= s <= rounds ==> Idle(es, s, x)
    requires n in Nodes(es) && 0 <= t <= rounds
    ensures v(n, t) == v(n, 0)
    decreases t
  {
    if t > 0 {
      IdleSumsVanish(es, n, t, x);
      IdleRoundsFreeze(es, rounds, v, x, n, t - 1);
    }
  }

  /** A good no edge leads into can only shrink. */
  lemma {:induction false} NoIncomingNeverGrows<A>(es: seq<Edge<A>>, rounds: int, v: (Good, int) -> real,
                                                  x: (EdgeId, int) -> real, n: Good, t: int)
    requires Balances(es, rounds, v, x) && FlowsNonNegative(es, rounds, x)
    requires n in Nodes(es) && forall i :: 0 <= i < |es| ==> es[i].id.dst != n
    requires 0 <= t <= rounds
    ensures v(n, t) <= v(n, 0)
    decreases t
  {
    if t > 0 {
      NoIncomingNoInFlow(es, n, t, x);
      OutFlowNonNegative(es, n, t, x);
      NoIncomingNeverGrows(es, rounds, v, x, n, t - 1);
    }
  }

  /** No-shorting makes the non-negativity of holdings after round 0
      redundant: after each round a node holds at least what it received. */
  lemma HoldingsCoverInFlow<A>(es: seq<Edge<A>>, rounds: int, v: (Good, int) -> real, x: (EdgeId, int) -> real)
    requires NoShorting(es, rounds, v, x) && Balances(es, rounds, v, x)
    requires FlowsNonNegative(es, rounds, x) && RatesNonNegative(es)
    ensures forall n, t :: n in Nodes(es) && 1 <= t <= rounds ==> v(n, t) >= InFlow(es, n, t, x) >= 0.0
  {
    forall n, t | n in Nodes(es) && 1 <= t <= rounds
      ensures v(n, t) >= InFlow(es, n, t, x) >= 0.0
    {
      assert v(n, t - 1) >= OutFlow(es, n, t, x);
      assert v(n, t) == v(n, t - 1) + InFlow(es, n, t, x) - OutFlow(es, n, t, x);
      InFlowNonNegative(es, n, t, x);
    }
  }

  /** With non-negative flows, a node that sends out nothing in total sends
      nothing on any of its edges. */
  lemma {:induction false} SilentOutFlow<A>(es: seq<Edge<A>>, n: Good, t: int, x: (EdgeId, int) -> real)
    requires forall i :: 0 <= i < |es| ==> x(es[i].id, t) >= 0.0
    requires OutFlow(es, n, t, x) <= 0.0
    ensures forall i :: 0 <= i < |es| && es[i].id.src == n ==> x(es[i].id, t) == 0.0
  {
    if |es| > 0 {
      OutFlowNonNegative(es[1..], n, t, x);
      SilentOutFlow(es[1..], n, t, x);
      assert forall i :: 1 <= i < |es| ==> es[i] == es[1..][i - 1];
    }
  }

  /** If every node starts with nothing, nothing can ever be traded and
      every node keeps holding nothing: no-shorting forbids sending what
      one does not hold. */
  lemma {:induction false} NothingFromNothing<A>(es: seq<Edge<A>>, rounds: int, v: (Good, int) -> real,
                                               x: (EdgeId, int) -> real, t: int)
    requires NoShorting(es, rounds, v, x) && Balances(es, rounds, v, x) && FlowsNonNegative(es, rounds, x)
    requires forall n :: n in Nodes(es) ==> v(n, 0) == 0.0
    requires 0 <= t <= rounds
    ensures forall n :: n in Nodes(es) ==> v(n, t) == 0.0
    ensures forall s, i :: 1 <= s <= t && 0 <= i < |es| ==> x(es[i].id, s) == 0.0
    decreases t
  {
    if t > 0 {
      NothingFromNothing(es, rounds, v, x, t - 1);
      forall i | 0 <= i < |es|
        ensures x(es[i].id, t) == 0.0
      {
        var n := es[i].id.src;
        assert n in Nodes(es);
        assert v(n, t - 1) >= OutFlow(es, n, t, x);
        SilentOutFlow(es, n, t, x);
      }
      forall n | n in Nodes(es)
        ensures v(n, t) == 0.0
      {
        IdleSumsVanish(es, n, t, x);
        assert v(n, t) == v(n, t - 1) + InFlow(es, n, t, x) - OutFlow(es, n, t, x);
      }
    }
  }
}
