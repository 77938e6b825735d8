/** The directed graphs the core builds: a networkx DiGraph reduced to what
    the core reads. The node table keeps insertion order, as networkx does.
    The edge sequence stands for the edge set, recorded in first-added
    order; networkx lists its edge view grouped by source node instead, so
    only the order of each node's successors (what `neighbors` reads) is
    networkx's. An ordered pair is stored at most once, so adding an edge
    twice leaves one edge, while (a, b) and (b, a) stay two edges. */
module Digraph {
  import opened Sequences

  datatype Graph<N> = Graph(nodes: seq<N>, edges: seq<(N, N)>)

  /** No repeated node, no repeated edge, and every endpoint is a node. */
  ghost predicate WellFormed<N(!new)>(g: Graph<N>) {
    && NoDup(g.nodes)
    && NoDup(g.edges)
    && forall e :: e in g.edges ==> e.0 in g.nodes && e.1 in g.nodes
  }

  /** The endpoints of an edge list in the order an edge-adding loop meets
      them: source, then target, edge after edge. */
  function Endpoints<N(!new)>(es: seq<(N, N)>): (r: seq<N>)
    ensures forall e :: e in es ==> e.0 in r && e.1 in r
    ensures forall n :: n in r ==> exists e :: e in es && (n == e.0 || n == e.1)
  {
    if es == [] then []
    else
      var p, e := es[..|es| - 1], es[|es| - 1];
      assert es == p + [e];
      Endpoints(p) + [e.0, e.1]
  }

  /** `add_node`: the node is present afterwards, the nodes already there
      keep their places, and at most one node is appended. */
  function AddNode<N(==)>(g: Graph<N>, n: N): (h: Graph<N>)
    ensures n in h.nodes && g.nodes <= h.nodes && |h.nodes| <= |g.nodes| + 1
    ensures h.edges == g.edges
  {
    if n in g.nodes then g else g.(nodes := g.nodes + [n])
  }

  /** `add_edge`: adds the source, then the target, when missing; the edge
      itself is recorded once. Nothing present moves. */
  function AddEdge<N(==,!new)>(g: Graph<N>, u: N, v: N): (h: Graph<N>)
    ensures u in h.nodes && v in h.nodes && (u, v) in h.edges
    ensures g.nodes <= h.nodes && g.edges <= h.edges && |h.edges| <= |g.edges| + 1
  {
    var h := AddNode(AddNode(g, u), v);
    if (u, v) in h.edges then h else h.(edges := h.edges + [(u, v)])
  }

  /** `add_edges_from`: `add_edge` for each listed pair, in list order.
      Every listed pair becomes an edge, and nothing present moves. */
  function AddEdgesFrom<N(==,!new)>(g: Graph<N>, es: seq<(N, N)>): (h: Graph<N>)
    ensures g.nodes <= h.nodes && g.edges <= h.edges
    ensures forall e :: e in es ==> e in h.edges
  {
    if es == [] then g
    else
      var p, e := es[..|es| - 1], es[|es| - 1];
      assert es == p + [e];
      AddEdge(AddEdgesFrom(g, p), e.0, e.1)
  }

  /** A node table that is the Dedup of `ns` stays so under `add_node`. */
  lemma AddNodeDedup<N(!new)>(g: Graph<N>, ns: seq<N>, u: N)
    requires g.nodes == Dedup(ns)
    ensures AddNode(g, u).nodes == Dedup(ns + [u]) && AddNode(g, u).edges == g.edges
  {
    DedupSnoc(ns, u);
  }

  /** `add_edge` extends a Dedup node table by the source, then the target. */
  lemma AddEdgeNodes<N(!new)>(h: Graph<N>, ns: seq<N>, u: N, v: N)
    requires h.nodes == Dedup(ns)
    ensures AddEdge(h, u, v).nodes == Dedup(ns + [u, v])
  {
    AddNodeDedup(h, ns, u);
    AddNodeDedup(AddNode(h, u), ns + [u], v);
    assert ns + [u] + [v] == ns + [u, v];
  }

  /** Adding an edge list appends every endpoint not yet a node, in the
      order they are met. */
  lemma {:induction false} AddEdgesFromNodes<N(!new)>(g: Graph<N>, es: seq<(N, N)>)
    requires NoDup(g.nodes)
    ensures AddEdgesFrom(g, es).nodes == Dedup(g.nodes + Endpoints(es))
    decreases |es|
  {
    if es == [] {
      assert g.nodes + [] == g.nodes;
      DedupOfNoDup(g.nodes);
    } else {
      var p, e := es[..|es| - 1], es[|es| - 1];
      AddEdgesFromNodes(g, p);
      AddEdgesFromNodesStep(g, es);
    }
  }

  /** The inductive step of `AddEdgesFromNodes`: the last edge appends its
      unseen endpoints, source first. */
  lemma AddEdgesFromNodesStep<N(!new)>(g: Graph<N>, es: seq<(N, N)>)
    requires es != []
    requires AddEdgesFrom(g, es[..|es| - 1]).nodes == Dedup(g.nodes + Endpoints(es[..|es| - 1]))
    ensures AddEdgesFrom(g, es).nodes == Dedup(g.nodes + Endpoints(es))
  {
    var p, e := es[..|es| - 1], es[|es| - 1];
    var h, ns := AddEdgesFrom(g, p), g.nodes + Endpoints(p);
    assert AddEdgesFrom(g, es) == AddEdge(h, e.0, e.1);
    assert Endpoints(es) == Endpoints(p) + [e.0, e.1];
    AddEdgeNodes(h, ns, e.0, e.1);
    AppendAssoc(g.nodes, Endpoints(p), [e.0, e.1]);
  }

  /** Adding an edge list yields the listed pairs without repetition, in
      first-seen order after the edges already present. */
  lemma {:induction false} AddEdgesFromEdges<N(!new)>(g: Graph<N>, es: seq<(N, N)>)
    requires NoDup(g.edges)
    ensures AddEdgesFrom(g, es).edges == Dedup(g.edges + es)
    decreases |es|
  {
    if es == [] {
      assert g.edges + [] == g.edges;
      DedupOfNoDup(g.edges);
    } else {
      var p, e := es[..|es| - 1], es[|es| - 1];
      AddEdgesFromEdges(g, p);
      SplitLast(es);
      AppendAssoc(g.edges, p, [e]);
      DedupSnoc(g.edges + p, e);
    }
  }

  /** When every endpoint is already a node, adding the edges leaves the
      node table as it was, and the result is well formed. */
  lemma AddEdgesFromKnown<N(!new)>(g: Graph<N>, es: seq<(N, N)>)
    requires WellFormed(g)
    requires forall n :: n in Endpoints(es) ==> n in g.nodes
    ensures AddEdgesFrom(g, es).nodes == g.nodes
    ensures AddEdgesFrom(g, es).edges == Dedup(g.edges + es)
    ensures WellFormed(AddEdgesFrom(g, es))
  {
    AddEdgesFromNodes(g, es);
    AddEdgesFromEdges(g, es);
    DedupAbsorb(g.nodes, Endpoints(es));
    DedupOfNoDup(g.nodes);
    DedupSpec(g.edges + es);
  }

  /** The subgraph induced by `keep`: the nodes of `g` listed in `keep`, and
      only the edges with both endpoints among them. */
  function Induced<N(==,!new)>(g: Graph<N>, keep: seq<N>): (h: Graph<N>)
    ensures forall n :: n in h.nodes <==> n in g.nodes && n in keep
    ensures forall e :: e in h.edges <==> e in g.edges && e.0 in keep && e.1 in keep
    ensures WellFormed(g) ==> WellFormed(h)
  {
    Graph(Filter(g.nodes, n => n in keep), Filter(g.edges, (e: (N, N)) => e.0 in keep && e.1 in keep))
  }

  /** The successors of `n` (networkx `neighbors` on a DiGraph), in the
      order their edges were added. */
  function Successors<N(==,!new)>(edges: seq<(N, N)>, n: N): (r: seq<N>)
    ensures forall v :: v in r <==> (n, v) in edges
    ensures NoDup(edges) ==> NoDup(r)
  {
    if edges == [] then []
    else
      var rest := Successors(edges[1..], n);
      assert edges == [edges[0]] + edges[1..];
      if edges[0].0 == n then [edges[0].1] + rest else rest
  }
}
