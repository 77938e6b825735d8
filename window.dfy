/** The visualization window's state: the catalog and the graphs built at
    start-up, the selected view, the detail subgraph last drawn, pick
    resolution and the detail panel's text. */
module Window {
  import opened Outcome
  import opened Sequences
  import opened Catalog
  import opened Digraph
  import opened Aggregation
  import opened Selector
  import opened Details

  /** What the canvas shows: the aggregated areas or one area's assets. */
  datatype View = Overview | AreaDetail(area: string)

  /** The view a value of the current-area field selects: the overview
      label selects the overview, any other string an area. */
  function ViewOf(currentArea: string): (v: View)
    ensures v == Overview <==> currentArea == OverviewLabel
    ensures v.AreaDetail? ==> v.area == currentArea
  {
    if currentArea == OverviewLabel then Overview else AreaDetail(currentArea)
  }

  /** The entity a pick designates. */
  datatype Selection = SelectedArea(area: string) | SelectedAsset(asset: string)

  /** Maps a pick index into the nodes in the order they were drawn: an
      area in the overview, an asset in an area view; an index past the end
      is an IndexError. */
  function Resolve(view: View, index: nat, drawOrder: seq<string>): (r: Result<Selection>)
    ensures r.Ok? <==> index < |drawOrder|
    ensures r.Err? ==> r.error == IndexOutOfRange(index, |drawOrder|)
    ensures r.Ok? ==> r.value == if view == Overview then SelectedArea(drawOrder[index])
                                 else SelectedAsset(drawOrder[index])
  {
    if index < |drawOrder| then
      Ok(if view == Overview then SelectedArea(drawOrder[index]) else SelectedAsset(drawOrder[index]))
    else
      Err(IndexOutOfRange(index, |drawOrder|))
  }

  /** In the overview, drawn in the overview graph's node order, any index
      in range picks an area that has assets; and the areas picked at
      larger indices were met later in the catalog. */
  lemma PickInOverview(assets: seq<Asset>, edges: seq<(string, string)>, i: nat)
    requires OverviewGraph(assets, edges).Ok?
    requires i < |OverviewGraph(assets, edges).value.nodes|
    ensures var ns := OverviewGraph(assets, edges).value.nodes;
      && Resolve(Overview, i, ns) == Ok(SelectedArea(ns[i]))
      && Members(assets, ns[i]) != []
      && ns[i] in AreaColumn(assets)
    ensures var ns := OverviewGraph(assets, edges).value.nodes;
      forall j :: i < j < |ns| ==>
        ns[j] in AreaColumn(assets) && FirstIndex(AreaColumn(assets), ns[i]) < FirstIndex(AreaColumn(assets), ns[j])
  {
    var ns := OverviewGraph(assets, edges).value.nodes;
    assert ns[i] in ns;
    AreaKeys(assets, ns[i]);
    DedupSpec(AreaColumn(assets));
    forall j | i < j < |ns|
      ensures ns[j] in AreaColumn(assets) && FirstIndex(AreaColumn(assets), ns[i]) < FirstIndex(AreaColumn(assets), ns[j])
    {
      OverviewNodesFirstSeen(assets, edges, i, j);
    }
  }

  /** In the view of area X, whatever order the renderer drew the detail
      subgraph's nodes in, a pick in range resolves to an asset of X. */
  lemma PickInAreaView(assets: seq<Asset>, edges: seq<(string, string)>, x: string, index: nat, drawOrder: seq<string>)
    requires UniqueNames(assets) && EndpointsKnown(assets, edges)
    requires x != OverviewLabel
    requires forall n :: n in drawOrder <==> n in Induced(EntityGraph(assets, edges), Members(assets, x)).nodes
    requires index < |drawOrder|
    ensures Resolve(ViewOf(x), index, drawOrder) == Ok(SelectedAsset(drawOrder[index]))
    ensures Find(assets, drawOrder[index]).Some? && Find(assets, drawOrder[index]).value.area == x
  {
    var n := drawOrder[index];
    assert n in drawOrder;
    assert n in Members(assets, x);
    var a :| a in assets && a.name == n && a.area == x;
    var k :| 0 <= k < |assets| && assets[k] == a;
    FindIdentical(assets, k);
  }

  /** The detail view of area X holds exactly X's assets and exactly the
      listed edges between two of them; an edge leaving X is not drawn. */
  lemma DetailViewContents(assets: seq<Asset>, edges: seq<(string, string)>, x: string, n: string, e: (string, string))
    requires UniqueNames(assets) && EndpointsKnown(assets, edges)
    ensures var h := Induced(EntityGraph(assets, edges), Members(assets, x));
      && (n in h.nodes <==> Find(assets, n).Some? && Find(assets, n).value.area == x)
      && (e in h.edges <==> e in edges && e.0 in Members(assets, x) && e.1 in Members(assets, x))
  {
    EntityGraphShape(assets, edges);
    DedupSpec(edges);
    InNames(assets, n);
    if Find(assets, n).Some? {
      var k :| 0 <= k < |assets| && assets[k] == Find(assets, n).value;
      GroupExactlyOne(assets, k, x);
    }
  }

  /** An area's detail text lists as connected areas exactly the targets
      of its outgoing overview edges, each once: an area that only points
      into it is not listed. */
  lemma ConnectedAreasAreSuccessors(assets: seq<Asset>, edges: seq<(string, string)>, a: string, b: string)
    requires OverviewGraph(assets, edges).Ok?
    ensures var ov := OverviewGraph(assets, edges).value;
      && NoDup(Successors(ov.edges, a))
      && (b in Successors(ov.edges, a) <==> exists e :: e in edges && Induces(assets, e, a, b))
  {
    OverviewEdgeIff(assets, edges, a, b);
    DedupSpec(ProjectEdges(assets, edges).value);
  }

  /** What start-up builds from a catalog and its edge list: the area table,
      the asset graph, the overview graph and the selector entries. */
  ghost predicate Built(assets: seq<Asset>, edges: seq<(string, string)>, order: seq<string>,
                        groups: map<string, seq<string>>, g: Graph<string>, overview: Graph<string>,
                        items: seq<string>)
  {
    && UniqueNames(assets)
    && EndpointsKnown(assets, edges)
    && Grouped(assets, order, groups)
    && g == EntityGraph(assets, edges)
    && OverviewGraph(assets, edges) == Ok(overview)
    && items == SelectorItems(order)
  }

  /** The CBAVisualization window, reduced to the fields the core reads and
      writes. Graphs are values: the fields are reassigned, never shared. */
  class CBAVisualization {
    var assets: seq<Asset>
    var areaOrder: seq<string>
    var functionalAreas: map<string, seq<string>>
    var g: Graph<string>
    var overview: Graph<string>
    var selectorItems: seq<string>
    var currentArea: string
    var subgraph: Option<Graph<string>>
    /** The edge list of the start-up catalog; the source keeps it local. */
    ghost var edgeList: seq<(string, string)>

    /** The tables and graphs are those built from the catalog and its edge
        list, and the selector offers the overview and the sorted areas. */
    ghost predicate Valid()
      reads this
    {
      Built(assets, edgeList, areaOrder, functionalAreas, g, overview, selectorItems)
    }

    /** Start-up: build the tables and graphs, fill the selector, and start
        in the overview. No detail subgraph exists yet. */
    constructor (assets: seq<Asset>, edges: seq<(string, string)>)
      requires UniqueNames(assets) && EndpointsKnown(assets, edges)
      ensures Valid()
      ensures this.assets == assets && edgeList == edges
      ensures currentArea == OverviewLabel && subgraph == None
    {
      var order, groups := GroupByArea(assets);
      assert Grouped(assets, order, groups);
      var graph := BuildEntityGraph(assets, edges);
      var built := BuildOverview(assets, order, edges);
      ProjectOkIff(assets, edges);
      assert built.Ok?;
      var items := SelectorItems(order);
      assert Built(assets, edges, order, groups, graph, built.value, items);
      this.assets, edgeList := assets, edges;
      areaOrder, functionalAreas := order, groups;
      g, overview, selectorItems := graph, built.value, items;
      currentArea, subgraph := OverviewLabel, None;
    }

    /** The text shown for an area: its members in grouping order and its
        outgoing overview neighbours; an unknown area is a KeyError. */
    function AreaDetails(area: string): (r: Result<string>)
      reads this
      ensures Valid() ==> (r.Ok? <==> Members(assets, area) != [])
      ensures Valid() && r.Ok? ==>
        r.value == AreaDetailsText(area, Members(assets, area), Successors(overview.edges, area))
    {
      assert Valid() ==> (area in functionalAreas <==> Members(assets, area) != []) by {
        if Valid() { AreaKeys(assets, area); }
      }
      if area in functionalAreas then
        Ok(AreaDetailsText(area, functionalAreas[area], Successors(overview.edges, area)))
      else
        Err(UnknownArea(area))
    }

    /** The text shown for an asset; an unknown name is a KeyError. */
    function AssetDetails(node: string): (r: Result<string>)
      reads this
      ensures r.Err? <==> node !in Names(assets)
      ensures r.Ok? ==> exists a :: a in assets && a.name == node && r.value == AssetDetailsText(node, a)
    {
      match Find(assets, node)
      case None => Err(UnknownAsset(node))
      case Some(a) => Ok(AssetDetailsText(node, a))
    }

    /** Redraws for the current area: the overview graph, or the subgraph
        induced by the area's members, kept for later picks. A current area
        that is neither the overview label nor an area key is a KeyError and
        draws nothing. */
    method DrawGraph() returns (ok: bool)
      requires Valid()
      modifies this`subgraph
      ensures Valid()
      ensures ok <==> currentArea == OverviewLabel || currentArea in functionalAreas
      ensures if ok && currentArea != OverviewLabel
              then subgraph == Some(Induced(g, functionalAreas[currentArea]))
              else subgraph == old(subgraph)
    {
      match ViewOf(currentArea)
      case Overview =>
        ok := true;
      case AreaDetail(area) =>
        if area in functionalAreas {
          subgraph := Some(Induced(g, functionalAreas[area]));
          ok := true;
        } else {
          ok := false;
        }
    }

    /** Selecting a view: the field is overwritten first, then the canvas is
        redrawn; nothing else in the window changes. */
    method ChangeArea(area: string) returns (ok: bool)
      requires Valid()
      modifies this`currentArea, this`subgraph
      ensures Valid() && currentArea == area
      ensures ok <==> area == OverviewLabel || area in functionalAreas
      ensures if ok && area != OverviewLabel
              then subgraph == Some(Induced(g, functionalAreas[area]))
              else subgraph == old(subgraph)
    {
      currentArea := area;
      ok := DrawGraph();
    }

    /** Builds the area record line by line. */
    method ShowAreaDetails(area: string) returns (r: Result<string>)
      ensures r == AreaDetails(area)
    {
      if area !in functionalAreas {
        return Err(UnknownArea(area));
      }
      var details := "Functional Area: " + area + "\n\n";
      details := details + "Assets in this area:\n";
      details := AppendBullets(details, functionalAreas[area]);
      details := details + "\nConnected Areas:\n";
      details := AppendBullets(details, Successors(overview.edges, area));
      r := Ok(details);
    }

    /** Builds the asset record line by line. */
    method ShowAssetDetails(node: string) returns (r: Result<string>)
      ensures r == AssetDetails(node)
    {
      var found := Find(assets, node);
      if found.None? {
        return Err(UnknownAsset(node));
      }
      var data := found.value;
      var details := "Asset: " + node + "\n\n";
      details := details + ("Functional Area: " + data.area + "\n\n");
      details := details + ("Description: " + data.description + "\n\n");
      details := details + "Key Features:\n";
      details := AppendBullets(details, data.keyFeatures);
      details := details + ("\nRelated Systems: " + Join(data.relatedSystems, ", ") + "\n\n");
      details := details + ("Data Flow: " + data.dataFlow + "\n\n");
      details := details + ("Business Impact: " + data.businessImpact);
      r := Ok(details);
    }

    /** A pick: resolve the index against the draw order for the current
        view, then show the picked area's or asset's record. */
    method OnPick(index: nat, drawOrder: seq<string>) returns (r: Result<string>)
      ensures r == match Resolve(ViewOf(currentArea), index, drawOrder)
                   case Err(e) => Err(e)
                   case Ok(SelectedArea(a)) => AreaDetails(a)
                   case Ok(SelectedAsset(n)) => AssetDetails(n)
    {
      var picked := Resolve(ViewOf(currentArea), index, drawOrder);
      match picked
      case Err(e) =>
        r := Err(e);
      case Ok(SelectedArea(a)) =>
        r := ShowAreaDetails(a);
      case Ok(SelectedAsset(n)) =>
        r := ShowAssetDetails(n);
    }
  }
}
