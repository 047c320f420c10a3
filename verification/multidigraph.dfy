/** The part of a networkx `MultiDiGraph` the optimizer relies on: edges added
    one at a time with an automatically chosen key, parallel edges kept, and
    the iteration order of `graph.edges` (by first appearance of the source
    node, then of the target node among that source's successors, then by key). */
module MultiDiGraph {

  import opened Results

  /** A currency (node) name. */
  type Good = string

  /** The `(u, v, key)` triple networkx uses to name an edge. */
  datatype EdgeId = EdgeId(src: Good, dst: Good, key: nat)

  /** An edge with the two attributes every version of the builder stores
      (`a` and `gold_cost`) and the version-specific ones in `attrs`. */
  datatype Edge<A> = Edge(id: EdgeId, a: real, goldCost: real, attrs: A)

  /** A multigraph; `edges` is in insertion order. */
  datatype Graph<A> = Graph(edges: seq<Edge<A>>)

  predicate Joins<A>(e: Edge<A>, u: Good, v: Good) {
    e.id.src == u && e.id.dst == v
  }

  /** How many edges of `es` run from `u` to `v`. */
  function CountPair<A>(es: seq<Edge<A>>, u: Good, v: Good): nat {
    if |es| == 0 then 0
    else CountPair(es[..|es| - 1], u, v) + (if Joins(es[|es| - 1], u, v) then 1 else 0)
  }

  /** Every key is the one networkx's `new_edge_key` picks: the number of
      earlier edges between the same two nodes. */
  predicate KeysAssigned<A>(es: seq<Edge<A>>) {
    forall i :: 0 <= i < |es| ==> es[i].id.key == CountPair(es[..i], es[i].id.src, es[i].id.dst)
  }

  /** `add_edge(u, v, a=..., gold_cost=..., ...)` without an explicit key:
      the new edge is appended, gets the next free key for `(u, v)`, and the
      edges already present are untouched. */
  function AddEdge<A>(g: Graph<A>, u: Good, v: Good, a: real, goldCost: real, attrs: A): (r: Graph<A>)
    requires KeysAssigned(g.edges)
    ensures |r.edges| == |g.edges| + 1 && r.edges[..|g.edges|] == g.edges
    ensures r.edges[|g.edges|].id.src == u && r.edges[|g.edges|].id.dst == v
    ensures r.edges[|g.edges|].a == a && r.edges[|g.edges|].goldCost == goldCost
    ensures r.edges[|g.edges|].attrs == attrs
    ensures KeysAssigned(r.edges)
    ensures forall i :: 0 <= i < |g.edges| ==> r.edges[i].id != r.edges[|g.edges|].id
  {
    var e := Edge(EdgeId(u, v, CountPair(g.edges, u, v)), a, goldCost, attrs);
    var es := g.edges + [e];
    assert es[..|g.edges|] == g.edges;
    forall i | 0 <= i < |g.edges|
      ensures es[..i] == g.edges[..i]
    {
    }
    forall i | 0 <= i < |g.edges| && Joins(g.edges[i], u, v)
      ensures g.edges[i].id.key < e.id.key
    {
      CountPairGrows(g.edges, i, u, v);
    }
    Graph(es)
  }

  lemma {:induction false} CountPairMonotone<A>(es: seq<Edge<A>>, i: nat, j: nat, u: Good, v: Good)
    requires i <= j <= |es|
    ensures CountPair(es[..i], u, v) <= CountPair(es[..j], u, v)
    decreases j - i
  {
    if i < j {
      assert es[..j][..j - 1] == es[..j - 1];
      CountPairMonotone(es, i, j - 1, u, v);
    }
  }

  /** An edge from `u` to `v` at position `i` is counted in every prefix past it. */
  lemma CountPairGrows<A>(es: seq<Edge<A>>, i: nat, u: Good, v: Good)
    requires i < |es| && Joins(es[i], u, v)
    ensures CountPair(es[..i], u, v) < CountPair(es, u, v)
  {
    assert es[..i + 1][..i] == es[..i];
    CountPairMonotone(es, i + 1, |es|, u, v);
    assert es[..|es|] == es;
  }

  /** With networkx's keys, no two edges share an `(u, v, key)` triple, so
      parallel edges stay distinct. */
  lemma KeysMakeIdsDistinct<A>(es: seq<Edge<A>>)
    requires KeysAssigned(es)
    ensures forall i, j :: 0 <= i < j < |es| ==> es[i].id != es[j].id
  {
    forall i, j | 0 <= i < j < |es| && Joins(es[i], es[j].id.src, es[j].id.dst)
      ensures es[i].id.key < es[j].id.key
    {
      var u, v := es[j].id.src, es[j].id.dst;
      assert es[..j][i] == es[i];
      CountPairGrows(es[..j], i, u, v);
      assert es[..j][..i] == es[..i];
    }
  }

  /** The node set: every endpoint of an edge. */
  function Nodes<A>(es: seq<Edge<A>>): set<Good> {
    (set i | 0 <= i < |es| :: es[i].id.src) + (set i | 0 <= i < |es| :: es[i].id.dst)
  }

  predicate NoDup<T(==)>(s: seq<T>) {
    forall i, j :: 0 <= i < j < |s| ==> s[i] != s[j]
  }

  /** Keeps the first occurrence of every element, in order. */
  function Dedup(s: seq<Good>): (r: seq<Good>)
    ensures NoDup(r)
    ensures forall x :: x in r <==> x in s
  {
    if |s| == 0 then []
    else
      var d := Dedup(s[..|s| - 1]);
      assert forall x :: x in s <==> x in s[..|s| - 1] || x == s[|s| - 1];
      if s[|s| - 1] in d then d else d + [s[|s| - 1]]
  }

  /** Source then target of each edge, in insertion order: the order in
      which `add_edge` inserts nodes. */
  function Endpoints<A>(es: seq<Edge<A>>): (r: seq<Good>)
    ensures forall w :: w in r <==> exists i :: 0 <= i < |es| && (w == es[i].id.src || w == es[i].id.dst)
  {
    if |es| == 0 then []
    else
      var r := Endpoints(es[..|es| - 1]) + [es[|es| - 1].id.src, es[|es| - 1].id.dst];
      assert forall i :: 0 <= i < |es| - 1 ==> es[..|es| - 1][i] == es[i];
      r
  }

  /** `list(graph.nodes)`. */
  function NodeOrder<A>(es: seq<Edge<A>>): seq<Good> {
    Dedup(Endpoints(es))
  }

  /** Targets of the edges leaving `u`, in insertion order. */
  function TargetsOf<A>(es: seq<Edge<A>>, u: Good): (r: seq<Good>)
    ensures forall w :: w in r <==> exists i :: 0 <= i < |es| && Joins(es[i], u, w)
  {
    if |es| == 0 then []
    else
      var last := es[|es| - 1];
      var r := TargetsOf(es[..|es| - 1], u) + (if last.id.src == u then [last.id.dst] else []);
      assert forall i :: 0 <= i < |es| - 1 ==> es[..|es| - 1][i] == es[i];
      r
  }

  /** `graph.succ[u]`: the successors of `u` in first-insertion order. */
  function Successors<A>(es: seq<Edge<A>>, u: Good): seq<Good> {
    Dedup(TargetsOf(es, u))
  }

  /** Positions of the edges from `u` to `v`, ascending (that is, by key). */
  function Parallel<A>(es: seq<Edge<A>>, u: Good, v: Good): (r: seq<nat>)
    ensures forall k :: 0 <= k < |r| ==> r[k] < |es| && Joins(es[r[k]], u, v)
    ensures forall i :: 0 <= i < |es| && Joins(es[i], u, v) ==> i in r
    ensures forall k, l :: 0 <= k < l < |r| ==> r[k] < r[l]
  {
    if |es| == 0 then []
    else
      var n := |es| - 1;
      var p := Parallel(es[..n], u, v);
      assert forall i :: 0 <= i < n ==> es[..n][i] == es[i];
      if Joins(es[n], u, v) then p + [n] else p
  }

  function ByTarget<A>(es: seq<Edge<A>>, u: Good, vs: seq<Good>): (r: seq<nat>)
    ensures forall k :: 0 <= k < |r| ==> r[k] < |es| && es[r[k]].id.src == u && es[r[k]].id.dst in vs
    ensures forall i :: 0 <= i < |es| && es[i].id.src == u && es[i].id.dst in vs ==> i in r
  {
    if |vs| == 0 then []
    else
      var r := Parallel(es, u, vs[0]) + ByTarget(es, u, vs[1..]);
      assert forall w :: w in vs <==> w == vs[0] || w in vs[1..];
      r
  }

  function BySource<A>(es: seq<Edge<A>>, us: seq<Good>): (r: seq<nat>)
    ensures forall k :: 0 <= k < |r| ==> r[k] < |es| && es[r[k]].id.src in us
    ensures forall i :: 0 <= i < |es| && es[i].id.src in us ==> i in r
  {
    if |us| == 0 then []
    else
      var r := ByTarget(es, us[0], Successors(es, us[0])) + BySource(es, us[1..]);
      assert forall w :: w in us <==> w == us[0] || w in us[1..];
      r
  }

  /** `list(graph.edges)` as positions into `es`. */
  function EdgeOrder<A>(es: seq<Edge<A>>): seq<nat> {
    BySource(es, NodeOrder(es))
  }

  lemma NoDupConcat(s: seq<nat>, t: seq<nat>)
    requires NoDup(s) && NoDup(t)
    requires forall k, l :: 0 <= k < |s| && 0 <= l < |t| ==> s[k] != t[l]
    ensures NoDup(s + t)
  {
  }

  lemma {:induction false} ByTargetNoDup<A>(es: seq<Edge<A>>, u: Good, vs: seq<Good>)
    requires NoDup(vs)
    ensures NoDup(ByTarget(es, u, vs))
  {
    if |vs| > 0 {
      assert NoDup(vs[1..]);
      ByTargetNoDup(es, u, vs[1..]);
      var p, q := Parallel(es, u, vs[0]), ByTarget(es, u, vs[1..]);
      forall k, l | 0 <= k < |p| && 0 <= l < |q|
        ensures p[k] != q[l]
      {
        assert es[q[l]].id.dst in vs[1..];
        assert vs[0] !in vs[1..];
      }
      NoDupConcat(p, q);
    }
  }

  lemma {:induction false} BySourceNoDup<A>(es: seq<Edge<A>>, us: seq<Good>)
    requires NoDup(us)
    ensures NoDup(BySource(es, us))
  {
    if |us| > 0 {
      assert NoDup(us[1..]);
      BySourceNoDup(es, us[1..]);
      ByTargetNoDup(es, us[0], Successors(es, us[0]));
      var p, q := ByTarget(es, us[0], Successors(es, us[0])), BySource(es, us[1..]);
      forall k, l | 0 <= k < |p| && 0 <= l < |q|
        ensures p[k] != q[l]
      {
        assert es[q[l]].id.src in us[1..];
        assert us[0] !in us[1..];
      }
      NoDupConcat(p, q);
    }
  }

  /** `graph.edges` lists every edge exactly once: its positions are all in
      range, every edge appears, and none appears twice. */
  lemma EdgeOrderIsPermutation<A>(es: seq<Edge<A>>)
    ensures forall k :: 0 <= k < |EdgeOrder(es)| ==> EdgeOrder(es)[k] < |es|
    ensures forall i :: 0 <= i < |es| ==> i in EdgeOrder(es)
    ensures NoDup(EdgeOrder(es))
  {
    BySourceNoDup(es, NodeOrder(es));
    forall i | 0 <= i < |es|
      ensures es[i].id.src in NodeOrder(es)
    {
      assert es[i].id.src in Endpoints(es);
    }
  }

  /** What one order row contributes: the endpoints and attributes of its edge. */
  datatype EdgeSpec<A> = EdgeSpec(src: Good, dst: Good, a: real, goldCost: real, attrs: A)

  predicate Realises<A(==)>(e: Edge<A>, s: EdgeSpec<A>) {
    e.id.src == s.src && e.id.dst == s.dst && e.a == s.a && e.goldCost == s.goldCost && e.attrs == s.attrs
  }

  /** The builders' loop: rows are turned into edges in order and added to a
      fresh multigraph; the first row that raises aborts the whole build, so
      no partial graph is ever returned. */
  function Build<A(==), E>(rows: seq<Result<EdgeSpec<A>, E>>): (r: Result<Graph<A>, E>)
    ensures r.Ok? <==> forall i :: 0 <= i < |rows| ==> rows[i].Ok?
    ensures r.Err? ==> exists i :: 0 <= i < |rows| && rows[i] == Err(r.error) &&
                          forall j :: 0 <= j < i ==> rows[j].Ok?
    ensures r.Ok? ==> |r.value.edges| == |rows| && KeysAssigned(r.value.edges)
    ensures r.Ok? ==> forall i :: 0 <= i < |rows| ==> Realises(r.value.edges[i], rows[i].value)
  {
    if |rows| == 0 then Ok(Graph([]))
    else
      var n := |rows| - 1;
      var prev := Build(rows[..n]);
      if prev.Err? then
        EarlierErrorStands(rows, prev.error);
        Err(prev.error)
      else if rows[n].Err? then
        LastRowRaises(rows);
        Err(rows[n].error)
      else
        var s := rows[n].value;
        var g := AddEdge(prev.value, s.src, s.dst, s.a, s.goldCost, s.attrs);
        LastRowAdded(rows, prev.value, g);
        Ok(g)
  }

  /** A row that raised before the last one is still the first to raise. */
  lemma EarlierErrorStands<A, E>(rows: seq<Result<EdgeSpec<A>, E>>, e: E)
    requires |rows| > 0
    requires var init := rows[..|rows| - 1];
      exists i :: 0 <= i < |init| && init[i] == Err(e) && forall j :: 0 <= j < i ==> init[j].Ok?
    ensures exists i :: 0 <= i < |rows| && rows[i] == Err(e) && forall j :: 0 <= j < i ==> rows[j].Ok?
  {
    var init := rows[..|rows| - 1];
    var i :| 0 <= i < |init| && init[i] == Err(e) && forall j :: 0 <= j < i ==> init[j].Ok?;
    assert rows[i] == init[i];
    forall j | 0 <= j < i
      ensures rows[j].Ok?
    {
      assert rows[j] == init[j];
    }
  }

  /** When every earlier row is accepted, a raising last row is the first
      to raise. */
  lemma LastRowRaises<A, E>(rows: seq<Result<EdgeSpec<A>, E>>)
    requires |rows| > 0 && rows[|rows| - 1].Err?
    requires var init := rows[..|rows| - 1]; forall i :: 0 <= i < |init| ==> init[i].Ok?
    ensures exists i :: 0 <= i < |rows| && rows[i] == Err(rows[|rows| - 1].error) &&
              forall j :: 0 <= j < i ==> rows[j].Ok?
  {
    var init := rows[..|rows| - 1];
    forall j | 0 <= j < |rows| - 1
      ensures rows[j].Ok?
    {
      assert rows[j] == init[j];
    }
  }

  /** Appending the last row's edge to the graph built from the earlier rows
      realises every row in order. */
  lemma LastRowAdded<A, E>(rows: seq<Result<EdgeSpec<A>, E>>, prev: Graph<A>, g: Graph<A>)
    requires |rows| > 0 && rows[|rows| - 1].Ok?
    requires var init := rows[..|rows| - 1];
      && |prev.edges| == |init|
      && forall i :: 0 <= i < |init| ==> init[i].Ok? && Realises(prev.edges[i], init[i].value)
    requires |g.edges| == |rows| && g.edges[..|rows| - 1] == prev.edges
    requires Realises(g.edges[|rows| - 1], rows[|rows| - 1].value)
    ensures forall i :: 0 <= i < |rows| ==> rows[i].Ok? && Realises(g.edges[i], rows[i].value)
  {
    var init := rows[..|rows| - 1];
    forall i | 0 <= i < |rows| - 1
      ensures rows[i].Ok? && Realises(g.edges[i], rows[i].value)
    {
      assert rows[i] == init[i];
      assert g.edges[i] == g.edges[..|rows| - 1][i];
    }
  }
}
