# CBA Explorer graph core, modelled in Dafny

CBA Explorer shows a catalog of technical assets, each tagged with a
functional area, as a directed graph that can be browsed two ways:

- an **overview** whose nodes are the areas and whose edges are the
  cross-area dependencies induced by the asset edges;
- a **detail view** of one area, with that area's assets and the edges
  between them.

Picking a node shows a text record of the area or asset. This project models
the graph core inside the `CBAVisualization` window class:

- grouping the catalog by area;
- building the asset graph and aggregating it into the area graph;
- the current-view field and its redraw dispatch;
- pick resolution;
- the detail texts.

It also proves what that core promises.

Modules:

- `Sequences` (`sequences.dfy`): first-seen duplicate removal (`Dedup`). It is
  the one rule behind the area table's key order, the graphs' node tables and
  their edge tables. The file also has filtering and first-occurrence indices.
- `Catalog` (`catalog.dfy`): the `Asset` record, lookup by name, and the
  grouping loop that builds the area table.
- `Digraph` (`digraph.dfy`): a networkx `DiGraph` reduced to its node table,
  in insertion order, and its edges. The edge sequence stands for the edge
  set and records each pair where it was first added. That overall order is
  not networkx's: its edge view lists edges grouped by source node. The core
  only reads each node's successors in insertion order (`neighbors`, line
  553), and `Successors` gives exactly that order. The module provides
  `add_node`, `add_edge`, `add_edges_from`, the induced subgraph and the
  successor list.
- `Aggregation` (`aggregation.dfy`): the asset graph, the projection of asset
  edges to area edges, and the overview graph. Its lemmas state the
  aggregation rule, no self-loops, deduplication and failure on an unknown
  endpoint.
- `Selector` (`selector.dfy`): Python's `sorted` on strings, and the selector
  entries.
- `Details` (`details.dfy`): bullet lists, `", ".join`, and the two record
  layouts. The bullet list and the join each come with an inverse
  (`ParseBullets`, `SplitOn`), so their lemmas are round trips. The two
  record layouts have no inverse. For them the model proves that the
  first line is the heading naming the area or the asset.
- `Window` (`window.dfy`): the `View` and `Selection` datatypes, pick
  resolution, and the class `CBAVisualization`. The class has the fields that
  the core writes: the area table, both graphs, the selector entries,
  `currentArea` and the last detail subgraph. Its methods are the source's
  loops and mutations.
- `Scenarios` (`scenarios.dfy`): concrete catalogs worked through the model in
  lemmas. One
  is the Sales/Billing example. The other is a slice of the start-up catalog:
  HP SDS, JAM, BIRD and Fleet Ops, with five of the listed edges among
  them. Those are (BIRD, Fleet Ops), (JAM, HP SDS), (Fleet Ops, BIRD), and
  the second listing of each of the last two.

Failures that the source raises as exceptions are `Result.Err` values:

- `UnknownAsset`: a `KeyError` on the asset table;
- `UnknownArea`: a `KeyError` on the area table;
- `IndexOutOfRange`: an `IndexError` on the drawn node list.

## Model

| member | source | states |
|---|---|---|
| `Sequences.DedupSpec` | cba_visualization.py:394-396 | the table built by appending only unseen keys has no repeated entry and holds exactly the keys met |
| `Sequences.DedupFirstSeen` | cba_visualization.py:392-395 | entries of a first-seen table appear in the order of their first occurrence in the input |
| `Sequences.DedupOfNoDup` | cba_visualization.py:399-400 | a list without repetition is kept as it is (asset names become the node table unchanged) |
| `Sequences.FilterAppend` | cba_visualization.py:520-521 | filtering keeps input order: filtering a concatenation is the concatenation of the filtered parts |
| `Catalog.Find` | cba_visualization.py:478-479 | a lookup succeeds exactly for names in the table and returns a record stored under that name |
| `Catalog.FindIdentical` | cba_visualization.py:559 | looking an asset up by its own name returns that very record, unchanged |
| `Catalog.Members` | cba_visualization.py:392-396 | a name is in the group of area A exactly when some catalog asset of that name has area A |
| `Catalog.MembersAppend` | cba_visualization.py:392-396 | the group of A for a catalog split in two is the group from the first part followed by the group from the second, so groups keep catalog order |
| `Catalog.GroupExactlyOne` | cba_visualization.py:392-396 | with distinct names, each asset lies in the group of its own area and in no other group |
| `Catalog.Areas` | cba_visualization.py:391-396 | the keys of the area table, in first-seen order, contain no repeated area |
| `Catalog.AreaKeys` | cba_visualization.py:394-395 | an area is a key of the table exactly when at least one asset belongs to it |
| `Catalog.AddToGroup` | cba_visualization.py:393-396 | one pass of the loop body turns the area table of a catalog prefix into that of the prefix extended by one asset |
| `Catalog.GroupByArea` | cba_visualization.py:391-396 | the loop yields the keys in first-seen order, exactly those keys, and for each key exactly that area's members in catalog order |
| `Digraph.Endpoints` | cba_visualization.py:477-479 | the endpoint sequence contains both endpoints of every edge and nothing else |
| `Digraph.AddNode` | cba_visualization.py:400-405 | `add_node` (lines 400 and 405) leaves the node present, keeps every node already there in its place, appends at most one node and leaves the edges alone |
| `Digraph.AddEdge` | cba_visualization.py:481 | `add_edge` leaves both endpoints as nodes and the pair as an edge; nodes and edges already there keep their places, and at most one edge is added |
| `Digraph.AddEdgesFrom` | cba_visualization.py:473 | `add_edges_from` makes every listed pair an edge and moves no node or edge already there |
| `Digraph.AddEdgesFromNodes` | cba_visualization.py:473 | adding edges appends each endpoint not yet a node, in the order met |
| `Digraph.AddEdgesFromEdges` | cba_visualization.py:473 | adding edges stores each ordered pair once; (a, b) and (b, a) remain distinct; per source node, the successors keep first-listed order |
| `Digraph.AddEdgesFromKnown` | cba_visualization.py:473 | if every endpoint is a node, the node table is unchanged and the graph stays well formed |
| `Digraph.Induced` | cba_visualization.py:521 | the subgraph holds the graph's nodes that are in the kept list, and only the edges with both endpoints kept |
| `Digraph.Successors` | cba_visualization.py:553 | the neighbours of a node are exactly the targets of its outgoing edges, without repetition |
| `Aggregation.EntityGraph` | cba_visualization.py:399-400 | built by the node loop and the `add_edges_from` call of line 473, the asset graph's node table starts with the asset names in catalog order, and every listed pair is an edge |
| `Aggregation.ProjectEdges` | cba_visualization.py:477-481 | the edge loop yields at most one area pair per asset edge and never a pair of equal areas; when it fails, it names a name missing from the catalog |
| `Aggregation.OverviewGraph` | cba_visualization.py:477-481 | built by the node loop of lines 403-405 and this edge loop, the overview exists exactly when every endpoint is a catalog asset; otherwise the failure names a name missing from the catalog |
| `Aggregation.ProjectOkIff` | cba_visualization.py:477-479 | building the overview fails exactly when some edge endpoint is not a catalog asset |
| `Aggregation.ProjectFailsAtFirstUnknown` | cba_visualization.py:477-479 | the failure names the first unknown endpoint, in edge order with source before target |
| `Aggregation.ProjectErrPrefix` | cba_visualization.py:477-479 | a failure on a prefix of the edge list is the failure of the whole list |
| `Aggregation.ProjectEdgeIff` | cba_visualization.py:477-481 | an area pair is projected exactly when a listed edge runs from an asset of the first area to an asset of a different second area |
| `Aggregation.OverviewEdgeIff` | cba_visualization.py:477-481 | the overview has edge (A, B) if and only if some asset edge (s, t) has area(s) = A, area(t) = B and A differs from B |
| `Aggregation.OverviewNoSelfLoops` | cba_visualization.py:480-481 | the overview never has an edge (A, A), whatever the edge list |
| `Aggregation.OverviewWellFormed` | cba_visualization.py:403-405 | the overview has one node per distinct area, each area pair at most once, and only edges between area nodes |
| `Aggregation.OverviewNodesFirstSeen` | cba_visualization.py:403-405 | the overview's nodes are ordered by the catalog position of each area's first asset |
| `Aggregation.EntityGraphShape` | cba_visualization.py:399-400 | with distinct names and known endpoints, the asset graph's nodes are the assets in catalog order and its edges are the listed pairs without repetition |
| `Aggregation.BuildEntityGraph` | cba_visualization.py:399-400 | the node loop followed by `add_edges_from` yields the asset graph |
| `Aggregation.BuildOverview` | cba_visualization.py:403-405 | the node loop and then the edge loop (lines 477-481) yield the overview graph, or the first lookup failure |
| `Selector.Sort` | cba_visualization.py:488 | `sorted` returns the same strings, counted with multiplicity, in ascending code-point order |
| `Selector.SelectorItems` | cba_visualization.py:486-488 | the selector lists "Overview" first, then every area key, counted with multiplicity, in ascending order |
| `Selector.SelectorOffers` | cba_visualization.py:486-488 | an entry is offered exactly when it is "Overview" or an area key |
| `Details.Bullets` | cba_visualization.py:550-551 | the bullet text is empty exactly when there are no items, and takes at least the three characters of `- ` and the line break per item |
| `Details.BulletsSnoc` | cba_visualization.py:550-551 | appending a `- item` line extends the bullet list by that item at its end |
| `Details.AppendBullets` | cba_visualization.py:564-565 | the formatting loop (also lines 550-551 and 553-554) appends exactly the bullet list of its items, in order |
| `Details.BulletsRoundTrip` | cba_visualization.py:564-565 | items without line breaks are read back from their bullet list unchanged and in order |
| `Details.Join` | cba_visualization.py:566 | `", ".join` is empty for no items, and otherwise begins with the first item and ends with the last |
| `Details.JoinSplit` | cba_visualization.py:566 | a `", "`-joined list splits back at its commas into every item, duplicates and order kept |
| `Details.AreaDetailsText` | cba_visualization.py:548-554 | for an area name without a line break, the first line of the area record, up to its first line break, is `Functional Area: ` followed by the name |
| `Details.AssetDetailsText` | cba_visualization.py:560-568 | for an asset name without a line break, the first line of the asset record is `Asset: ` followed by the name |
| `Window.ViewOf` | cba_visualization.py:498-501 | the current-area string selects the overview exactly when it equals "Overview"; otherwise it selects that area |
| `Window.Resolve` | cba_visualization.py:535-545 | a pick succeeds exactly for an index inside the drawn node list; it names that node, as an area in the overview and as an asset otherwise; outside the list it is IndexOutOfRange |
| `Window.PickInOverview` | cba_visualization.py:536-540 | over the overview's node order, every index in range picks an area that has assets, and every larger index picks an area first seen later in the catalog |
| `Window.PickInAreaView` | cba_visualization.py:541-545 | in area X's view, whatever the draw order of the subgraph's nodes, an index in range picks an asset whose area is X |
| `Window.DetailViewContents` | cba_visualization.py:519-521 | area X's view holds exactly X's assets and exactly the listed edges between two of them; edges leaving X are dropped |
| `Window.ConnectedAreasAreSuccessors` | cba_visualization.py:552-554 | the connected areas of A are exactly the areas B reached by an asset edge out of A into a different area, each listed once; an area that only has edges into A is not listed |
| `Window.CBAVisualization.constructor` | cba_visualization.py:56-59 | start-up builds the area table, both graphs and the selector from the catalog and edge list, and starts in "Overview" with no detail subgraph |
| `Window.CBAVisualization.AreaDetails` | cba_visualization.py:547-554 | an area's text exists exactly for areas with assets; it lists the area's members in catalog order and then its outgoing overview neighbours |
| `Window.CBAVisualization.AssetDetails` | cba_visualization.py:558-568 | an asset's text exists exactly for catalog names, and it is the record layout of the asset stored under that name |
| `Window.CBAVisualization.DrawGraph` | cba_visualization.py:494-501 | drawing succeeds exactly for "Overview" or a known area; an area view stores the subgraph induced by the area's members; in every other case the subgraph is unchanged |
| `Window.CBAVisualization.ChangeArea` | cba_visualization.py:490-492 | the current area becomes the argument, even when the redraw then fails, and nothing else changes beyond the redraw's subgraph |
| `Window.CBAVisualization.ShowAreaDetails` | cba_visualization.py:547-556 | the accumulating loops produce the area text, or UnknownArea |
| `Window.CBAVisualization.ShowAssetDetails` | cba_visualization.py:558-570 | the accumulating loop and the join produce the asset text, or UnknownAsset |
| `Window.CBAVisualization.OnPick` | cba_visualization.py:535-545 | a pick is resolved against the draw order for the current view, then shows the picked area's text or the picked asset's text |
| `Scenarios.SalesBillingOverview` | cba_visualization.py:477-481 | with P and D in Sales and M in Billing, edges [(P, D), (D, M)] give the nodes [Sales, Billing] and the single edge (Sales, Billing) |
| `Scenarios.SalesPicks` | cba_visualization.py:541-545 | in the Sales view drawn as [P, D], index 1 picks D and its own record, and index 5 is out of range |
| `Scenarios.FleetEntityGraph` | cba_visualization.py:433-473 | from the edges of lines 433, 438, 446, 464 and 470, each pair listed twice (lines 438 and 464; 446 and 470) gives one asset edge, while (BIRD, Fleet Ops) and (Fleet Ops, BIRD) stay two edges |
| `Scenarios.FleetProjection` | cba_visualization.py:477-481 | over those five edges, the intra-area pair projects to nothing and the three cross-area edges project in list order |
| `Scenarios.FleetOverview` | cba_visualization.py:477-481 | the overview then has the three areas in catalog order and two area edges, one per direction |
| `Scenarios.FleetGraphsAsListed` | cba_visualization.py:284-387 | both graphs come out so with the catalog's own asset names and area names |

## Left out

- Window and widget set-up, signal wiring and `setText` (lines 16-61, 556, 570)
  are user-interface plumbing. The detail methods return their text instead of
  setting a widget.
- `generate_colors` (lines 10-13) is left out. It is floating-point HSV-to-RGB
  conversion and hex formatting.
- `nx.spring_layout` and every `draw_networkx_*`, axes and canvas call
  (lines 496-533) are left out. They are floating-point layout and rendering
  in libraries that are not part of this model. Drawing the overview
  therefore changes no modelled state.
- The matplotlib pick event (`isinstance(event.artist, PathCollection)` and
  `event.ind[0]`) is left out. The pick index and the renderer's draw order
  are plain inputs to `OnPick`.
- The node order of a networkx subgraph view is a library detail. The model
  keeps the asset graph's order in `Induced`, but it proves pick resolution
  for any draw order of the subgraph's nodes (`PickInAreaView`).
- The overview's node collection never gets a picker. Only the area view
  sets one, at line 529. So in the running window the overview branch of
  `on_pick` may never fire. The model resolves overview picks as lines
  536-540 write them.
- `print` logging (lines 64, 401, 474, 483-484, 495) is left out.
- The long description strings of the catalog literal (lines 69-388) are left
  out. `Asset` keeps every field, and the scenarios use small catalogs.
- Window.CBAVisualization.constructor: requires distinct asset names and
  requires every edge endpoint to be an asset. The literal at lines 69-388
  lists 25 distinct keys. An unknown endpoint makes `create_graph` raise inside
  `__init__`, so no window exists. That failure is modelled by
  `BuildOverview` and `ProjectFailsAtFirstUnknown`. `add_edges_from`
  silently adding unknown endpoints as nodes is modelled by
  `AddEdgesFromNodes`.
- Connected areas are only the outgoing overview neighbours (line 553). An
  area that only has edges into A is not listed under A.
- `change_area` overwrites the field before redrawing (lines 491-492). An
  unknown name then fails at line 520, after the field has changed.
- When `change_area` runs is decided by Qt, through the `currentTextChanged`
  wiring at line 33. That timing is not modelled: `ChangeArea` is called
  directly.
- An area that is itself named "Overview" would select the overview (line 498).
  `ViewOf` models this as written.
