/** Graph construction: the entity graph over assets and its projection to
    the overview graph over functional areas. */
module Aggregation {
  import opened Outcome
  import opened Sequences
  import opened Catalog
  import opened Digraph

  /** Every endpoint of the edge list names a catalog asset. */
  predicate EndpointsKnown(assets: seq<Asset>, edges: seq<(string, string)>) {
    forall n :: n in Endpoints(edges) ==> n in Names(assets)
  }

  /** The entity graph: a node per asset in catalog order, then the edge
      list added in one `add_edges_from` call. The assets lead the node
      table, and every listed pair is an edge. */
  function EntityGraph(assets: seq<Asset>, edges: seq<(string, string)>): (g: Graph<string>)
    ensures Dedup(Names(assets)) <= g.nodes
    ensures forall e :: e in edges ==> e in g.edges
  {
    AddEdgesFrom(Graph(Dedup(Names(assets)), []), edges)
  }

  /** Asset edge `e` runs from an asset of area `a` to an asset of a
      different area `b`. */
  ghost predicate Induces(assets: seq<Asset>, e: (string, string), a: string, b: string) {
    && Find(assets, e.0).Some? && Find(assets, e.0).value.area == a
    && Find(assets, e.1).Some? && Find(assets, e.1).value.area == b
    && a != b
  }

  /** The area pair of every cross-area edge, in edge-list order, or the
      first endpoint whose area lookup fails (source before target). At
      most one pair per edge, never a pair of equal areas, and a failure
      names a name missing from the catalog. */
  function ProjectEdges(assets: seq<Asset>, edges: seq<(string, string)>): (r: Result<seq<(string, string)>>)
    ensures r.Ok? ==> |r.value| <= |edges| && forall ab :: ab in r.value ==> ab.0 != ab.1
    ensures r.Err? ==> r.error.UnknownAsset? && r.error.name !in Names(assets)
  {
    if edges == [] then Ok([])
    else
      match ProjectEdges(assets, edges[..|edges| - 1])
      case Err(e) => Err(e)
      case Ok(ps) =>
        var e := edges[|edges| - 1];
        match (Find(assets, e.0), Find(assets, e.1))
        case (None, _) => Err(UnknownAsset(e.0))
        case (Some(_), None) => Err(UnknownAsset(e.1))
        case (Some(x), Some(y)) => if x.area != y.area then Ok(ps + [(x.area, y.area)]) else Ok(ps)
  }

  /** The overview graph: the area keys as nodes, the deduplicated
      projected edges as edges; or the lookup failure, which happens
      exactly when some endpoint is not a catalog asset. */
  function OverviewGraph(assets: seq<Asset>, edges: seq<(string, string)>): (r: Result<Graph<string>>)
    ensures r.Ok? <==> EndpointsKnown(assets, edges)
    ensures r.Err? ==> r.error.UnknownAsset? && r.error.name !in Names(assets)
  {
    ProjectOkIff(assets, edges);
    match ProjectEdges(assets, edges)
    case Err(e) => Err(e)
    case Ok(ps) => Ok(Graph(Areas(assets), Dedup(ps)))
  }

  lemma EndpointsSnoc(p: seq<(string, string)>, e: (string, string))
    ensures Endpoints(p + [e]) == Endpoints(p) + [e.0, e.1]
  {
    assert (p + [e])[..|p + [e]| - 1] == p;
  }

  /** The projection of the first k + 1 edges, from that of the first k,
      when edge k joins two catalog assets. */
  lemma ProjectStep(assets: seq<Asset>, edges: seq<(string, string)>, k: nat, ps: seq<(string, string)>,
                    x: Asset, y: Asset)
    requires k < |edges| && ProjectEdges(assets, edges[..k]) == Ok(ps)
    requires Find(assets, edges[k].0) == Some(x) && Find(assets, edges[k].1) == Some(y)
    ensures ProjectEdges(assets, edges[..k + 1]) == Ok(if x.area != y.area then ps + [(x.area, y.area)] else ps)
  {
    assert edges[..k + 1][..k] == edges[..k];
  }

  /** Projection fails exactly when some endpoint is not a catalog asset. */
  lemma {:induction false} ProjectOkIff(assets: seq<Asset>, edges: seq<(string, string)>)
    ensures ProjectEdges(assets, edges).Ok? <==> EndpointsKnown(assets, edges)
    decreases |edges|
  {
    if edges != [] {
      var p, e := edges[..|edges| - 1], edges[|edges| - 1];
      assert edges == p + [e];
      EndpointsSnoc(p, e);
      ProjectOkIff(assets, p);
    }
  }

  /** Projecting `edges` fails at endpoint `k`: the error names it, it is
      not a catalog asset, and every endpoint met before it is one. */
  ghost predicate FailsAt(assets: seq<Asset>, edges: seq<(string, string)>, k: nat) {
    && k < |Endpoints(edges)|
    && ProjectEdges(assets, edges) == Err(UnknownAsset(Endpoints(edges)[k]))
    && Endpoints(edges)[k] !in Names(assets)
    && forall j :: 0 <= j < k ==> Endpoints(edges)[j] in Names(assets)
  }

  /** A failure inside a prefix stays the failure after one more edge. */
  lemma FailsAtExtend(assets: seq<Asset>, p: seq<(string, string)>, e: (string, string), k: nat)
    requires FailsAt(assets, p, k)
    ensures FailsAt(assets, p + [e], k)
  {
    EndpointsSnoc(p, e);
    assert (p + [e])[..|p + [e]| - 1] == p;
    var ep := Endpoints(p);
    forall j | 0 <= j <= k
      ensures Endpoints(p + [e])[j] == ep[j]
    {
    }
  }

  /** After a prefix that projects, a failure lies in the last edge: at its
      source when that is unknown, else at its target. */
  lemma FailsAtLast(assets: seq<Asset>, p: seq<(string, string)>, e: (string, string))
    requires ProjectEdges(assets, p).Ok? && ProjectEdges(assets, p + [e]).Err?
    ensures FailsAt(assets, p + [e], |Endpoints(p)| + if e.0 in Names(assets) then 1 else 0)
  {
    EndpointsSnoc(p, e);
    assert (p + [e])[..|p + [e]| - 1] == p;
    KnownBeforeLast(assets, p, e);
  }

  /** When a prefix projects, every endpoint it contributes is known. */
  lemma KnownBeforeLast(assets: seq<Asset>, p: seq<(string, string)>, e: (string, string))
    requires ProjectEdges(assets, p).Ok?
    ensures forall j :: 0 <= j < |Endpoints(p)| ==> Endpoints(p + [e])[j] in Names(assets)
  {
    EndpointsSnoc(p, e);
    ProjectOkIff(assets, p);
    var ep := Endpoints(p);
    forall j | 0 <= j < |ep|
      ensures Endpoints(p + [e])[j] in Names(assets)
    {
      assert Endpoints(p + [e])[j] == ep[j] && ep[j] in ep;
    }
  }

  /** On failure the error names the first unknown endpoint met in edge
      order, source before target. */
  lemma {:induction false} ProjectFailsAtFirstUnknown(assets: seq<Asset>, edges: seq<(string, string)>)
    requires ProjectEdges(assets, edges).Err?
    ensures exists k :: FailsAt(assets, edges, k)
    decreases |edges|
  {
    var p, e := edges[..|edges| - 1], edges[|edges| - 1];
    assert edges == p + [e];
    if ProjectEdges(assets, p).Err? {
      ProjectFailsAtFirstUnknown(assets, p);
      var k :| FailsAt(assets, p, k);
      FailsAtExtend(assets, p, e, k);
    } else {
      FailsAtLast(assets, p, e);
    }
  }

  /** A failure met on a prefix of the edge list is the failure of the
      whole list. */
  lemma {:induction false} ProjectErrPrefix(assets: seq<Asset>, edges: seq<(string, string)>, k: nat)
    requires k <= |edges| && ProjectEdges(assets, edges[..k]).Err?
    ensures ProjectEdges(assets, edges) == ProjectEdges(assets, edges[..k])
    decreases |edges| - k
  {
    if k < |edges| {
      assert edges[..k + 1][..k] == edges[..k];
      ProjectErrPrefix(assets, edges, k + 1);
    } else {
      assert edges[..k] == edges;
    }
  }

  /** The aggregation rule: an area pair is projected exactly when some
      listed asset edge runs from the first area to the second, distinct,
      area. */
  lemma {:induction false} ProjectEdgeIff(assets: seq<Asset>, edges: seq<(string, string)>, a: string, b: string)
    requires ProjectEdges(assets, edges).Ok?
    ensures (a, b) in ProjectEdges(assets, edges).value <==> exists e :: e in edges && Induces(assets, e, a, b)
    decreases |edges|
  {
    if edges != [] {
      var p, e := edges[..|edges| - 1], edges[|edges| - 1];
      assert edges == p + [e];
      assert ProjectEdges(assets, p).Ok?;
      ProjectEdgeIff(assets, p, a, b);
      var ps := ProjectEdges(assets, p).value;
      var x, y := Find(assets, e.0).value, Find(assets, e.1).value;
      assert ProjectEdges(assets, edges).value == if x.area != y.area then ps + [(x.area, y.area)] else ps;
      assert Induces(assets, e, a, b) <==> x.area == a && y.area == b && a != b;
      assert forall f :: f in edges <==> f in p || f == e;
    }
  }

  /** The area of a catalog asset is one of the area keys. */
  lemma AreaOfAssetIsKey(assets: seq<Asset>, x: Asset)
    requires x in assets
    ensures x.area in Areas(assets)
  {
    var i :| 0 <= i < |assets| && assets[i] == x;
    assert AreaColumn(assets)[i] == x.area;
    DedupSpec(AreaColumn(assets));
  }

  /** The overview graph has an edge (A, B) exactly when some listed asset
      edge runs from an asset of A to an asset of B and A differs from B. */
  lemma OverviewEdgeIff(assets: seq<Asset>, edges: seq<(string, string)>, a: string, b: string)
    requires OverviewGraph(assets, edges).Ok?
    ensures (a, b) in OverviewGraph(assets, edges).value.edges <==> exists e :: e in edges && Induces(assets, e, a, b)
  {
    ProjectEdgeIff(assets, edges, a, b);
    DedupSpec(ProjectEdges(assets, edges).value);
  }

  /** The overview graph never has a self-loop, whatever the edge list,
      even when every asset shares one area. */
  lemma OverviewNoSelfLoops(assets: seq<Asset>, edges: seq<(string, string)>, a: string)
    requires OverviewGraph(assets, edges).Ok?
    ensures (a, a) !in OverviewGraph(assets, edges).value.edges
  {
    OverviewEdgeIff(assets, edges, a, a);
  }

  /** The overview graph is well formed: one node per distinct area, each
      area pair at most once, and every edge joins two area nodes. */
  lemma OverviewWellFormed(assets: seq<Asset>, edges: seq<(string, string)>)
    requires OverviewGraph(assets, edges).Ok?
    ensures WellFormed(OverviewGraph(assets, edges).value)
  {
    var ov := OverviewGraph(assets, edges).value;
    DedupSpec(AreaColumn(assets));
    DedupSpec(ProjectEdges(assets, edges).value);
    forall f | f in ov.edges
      ensures f.0 in ov.nodes && f.1 in ov.nodes
    {
      OverviewEdgeIff(assets, edges, f.0, f.1);
      var e :| e in edges && Induces(assets, e, f.0, f.1);
      AreaOfAssetIsKey(assets, Find(assets, e.0).value);
      AreaOfAssetIsKey(assets, Find(assets, e.1).value);
    }
  }

  /** The overview's nodes are the distinct area values, listed in the order
      their first asset appears in the catalog. */
  lemma OverviewNodesFirstSeen(assets: seq<Asset>, edges: seq<(string, string)>, i: nat, j: nat)
    requires OverviewGraph(assets, edges).Ok?
    requires i < j < |OverviewGraph(assets, edges).value.nodes|
    ensures var ns := OverviewGraph(assets, edges).value.nodes;
      ns[i] in AreaColumn(assets) && ns[j] in AreaColumn(assets)
      && FirstIndex(AreaColumn(assets), ns[i]) < FirstIndex(AreaColumn(assets), ns[j])
  {
    DedupFirstSeen(AreaColumn(assets), i, j);
  }

  /** With a catalog of distinct names whose edges name only catalog assets,
      the entity graph has exactly the assets as nodes, in catalog order,
      and each listed ordered pair once, in first-listed order. */
  lemma EntityGraphShape(assets: seq<Asset>, edges: seq<(string, string)>)
    requires UniqueNames(assets) && EndpointsKnown(assets, edges)
    ensures EntityGraph(assets, edges).nodes == Names(assets)
    ensures EntityGraph(assets, edges).edges == Dedup(edges)
    ensures WellFormed(EntityGraph(assets, edges))
  {
    DedupOfNoDup(Names(assets));
    var g0 := Graph(Names(assets), []);
    assert [] + edges == edges;
    AddEdgesFromKnown(g0, edges);
  }

  /** The node loop and the `add_edges_from` call that build the entity
      graph. */
  method BuildEntityGraph(assets: seq<Asset>, edges: seq<(string, string)>) returns (g: Graph<string>)
    ensures g == EntityGraph(assets, edges)
  {
    g := Graph([], []);
    for i := 0 to |assets|
      invariant g == Graph(Dedup(Names(assets)[..i]), [])
    {
      assert Names(assets)[..i + 1] == Names(assets)[..i] + [assets[i].name];
      DedupSnoc(Names(assets)[..i], assets[i].name);
      g := AddNode(g, assets[i].name);
    }
    assert Names(assets)[..|assets|] == Names(assets);
    g := AddEdgesFrom(g, edges);
  }

  /** The two loops that build the overview graph: one node per area key,
      then, edge by edge, the area lookup of both endpoints and an area edge
      when the areas differ. */
  method BuildOverview(assets: seq<Asset>, order: seq<string>, edges: seq<(string, string)>)
    returns (r: Result<Graph<string>>)
    requires order == Areas(assets)
    ensures r == OverviewGraph(assets, edges)
  {
    DedupSpec(AreaColumn(assets));
    var g := Graph([], []);
    for i := 0 to |order|
      invariant g == Graph(order[..i], [])
    {
      assert order[..i + 1] == order[..i] + [order[i]];
      g := AddNode(g, order[i]);
    }
    assert order[..|order|] == order;
    ghost var ps: seq<(string, string)> := [];
    var i := 0;
    while i < |edges|
      invariant 0 <= i <= |edges|
      invariant ProjectEdges(assets, edges[..i]) == Ok(ps)
      invariant g == Graph(order, Dedup(ps))
    {
      var (s, t) := edges[i];
      assert edges[..i + 1][..i] == edges[..i];
      var source := Find(assets, s);
      if source.None? {
        ProjectErrPrefix(assets, edges, i + 1);
        return Err(UnknownAsset(s));
      }
      var target := Find(assets, t);
      if target.None? {
        ProjectErrPrefix(assets, edges, i + 1);
        return Err(UnknownAsset(t));
      }
      var a, b := source.value.area, target.value.area;
      if a != b {
        AreaOfAssetIsKey(assets, source.value);
        AreaOfAssetIsKey(assets, target.value);
        DedupSnoc(ps, (a, b));
        g := AddEdge(g, a, b);
        ps := ps + [(a, b)];
      }
      i := i + 1;
    }
    assert edges[..i] == edges;
    r := Ok(g);
  }
}
