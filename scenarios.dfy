/** Concrete catalogs worked through the model in lemmas: the small
    Sales/Billing example, and a slice of the start-up catalog whose edge
    list repeats pairs and lists pairs in both directions. */
module Scenarios {
  import opened Outcome
  import opened Sequences
  import opened Catalog
  import opened Digraph
  import opened Aggregation
  import opened Window

  function Plain(name: string, area: string): Asset {
    Asset(name, area, "", [], [], "", "")
  }

  function SalesCatalog(): seq<Asset> {
    [Plain("P", "Sales"), Plain("D", "Sales"), Plain("M", "Billing")]
  }

  lemma SalesFinds()
    ensures Find(SalesCatalog(), "P") == Some(Plain("P", "Sales"))
    ensures Find(SalesCatalog(), "D") == Some(Plain("D", "Sales"))
    ensures Find(SalesCatalog(), "M") == Some(Plain("M", "Billing"))
  {
    var assets := SalesCatalog();
    assert Names(assets) == ["P", "D", "M"];
    FindIdentical(assets, 0);
    FindIdentical(assets, 1);
    FindIdentical(assets, 2);
  }

  /** P -> D projects to nothing; D -> M to (Sales, Billing). */
  lemma SalesProjection()
    ensures ProjectEdges(SalesCatalog(), [("P", "D"), ("D", "M")]) == Ok([] + [("Sales", "Billing")])
  {
    var assets, es := SalesCatalog(), [("P", "D"), ("D", "M")];
    SalesFinds();
    assert es[..0] == [] && es[..2] == es;
    ProjectStep(assets, es, 0, [], Plain("P", "Sales"), Plain("D", "Sales"));
    ProjectStep(assets, es, 1, [], Plain("D", "Sales"), Plain("M", "Billing"));
  }

  /** P -> D stays inside Sales and is invisible in the overview; D -> M
      becomes the one area edge Sales -> Billing. */
  lemma SalesBillingOverview()
    ensures OverviewGraph(SalesCatalog(), [("P", "D"), ("D", "M")])
            == Ok(Graph(["Sales", "Billing"], [("Sales", "Billing")]))
  {
    assert AreaColumn(SalesCatalog()) == ["Sales", "Sales", "Billing"];
    DedupRepeatFirst("Sales", "Billing");
    SalesProjection();
    var none: seq<(string, string)> := [];
    DedupSnoc(none, ("Sales", "Billing"));
    assert none + [("Sales", "Billing")] == [("Sales", "Billing")];
  }

  /** In the Sales view drawn as [P, D], index 1 is D with its own record;
      index 5 is out of range. */
  lemma SalesPicks()
    ensures Resolve(ViewOf("Sales"), 1, ["P", "D"]) == Ok(SelectedAsset("D"))
    ensures Find(SalesCatalog(), "D") == Some(Plain("D", "Sales"))
    ensures Resolve(ViewOf("Sales"), 5, ["P", "D"]) == Err(IndexOutOfRange(5, 2))
  {
    assert SalesCatalog()[1..][0] == Plain("D", "Sales");
  }

  /** Four assets of the start-up catalog, in catalog order: HP SDS and JAM
      of Device Connectivity, BIRD of Business Intelligence, Fleet Ops of
      Fleet Operations. Names and areas are parameters; only their
      distinctness matters. */
  function FleetCatalog(sds: string, jam: string, bird: string, fleet: string,
                        dc: string, bi: string, fo: string): seq<Asset> {
    [Plain(sds, dc), Plain(jam, dc), Plain(bird, bi), Plain(fleet, fo)]
  }

  /** Five of the listed edges among these assets, in list order:
      (BIRD, Fleet Ops), (JAM, HP SDS), (Fleet Ops, BIRD), then (JAM, HP SDS)
      and (Fleet Ops, BIRD) again. */
  function FleetEdges(sds: string, jam: string, bird: string, fleet: string): seq<(string, string)> {
    [(bird, fleet), (jam, sds), (fleet, bird), (jam, sds), (fleet, bird)]
  }

  predicate Distinct(sds: string, jam: string, bird: string, fleet: string, dc: string, bi: string, fo: string) {
    && sds != jam && sds != bird && sds != fleet && jam != bird && jam != fleet && bird != fleet
    && dc != bi && dc != fo && bi != fo
  }

  /** A list of three distinct values followed by a repeat of its last two. */
  lemma DedupRepeatTail<X(!new)>(x: X, y: X, z: X)
    requires x != y && x != z && y != z
    ensures Dedup([x, y, z, y, z]) == [x, y, z]
  {
    var s0: seq<X> := [];
    DedupSnoc(s0, x);
    var s1 := s0 + [x];
    DedupSnoc(s1, y);
    var s2 := s1 + [y];
    DedupSnoc(s2, z);
    var s3 := s2 + [z];
    DedupSnoc(s3, y);
    var s4 := s3 + [y];
    DedupSnoc(s4, z);
    assert s4 + [z] == [x, y, z, y, z];
  }

  /** A value listed twice, then two new values. */
  lemma DedupRepeatHead<X(!new)>(x: X, y: X, z: X)
    requires x != y && x != z && y != z
    ensures Dedup([x, x, y, z]) == [x, y, z]
  {
    var s0: seq<X> := [];
    DedupSnoc(s0, x);
    var s1 := s0 + [x];
    DedupSnoc(s1, x);
    var s2 := s1 + [x];
    DedupSnoc(s2, y);
    var s3 := s2 + [y];
    DedupSnoc(s3, z);
    assert s3 + [z] == [x, x, y, z];
  }

  /** A value listed twice, then a new value. */
  lemma DedupRepeatFirst<X(!new)>(x: X, y: X)
    requires x != y
    ensures Dedup([x, x, y]) == [x, y]
  {
    var s0: seq<X> := [];
    DedupSnoc(s0, x);
    var s1 := s0 + [x];
    DedupSnoc(s1, x);
    var s2 := s1 + [x];
    DedupSnoc(s2, y);
    assert s2 + [y] == [x, x, y];
  }

  /** A value followed by a second value listed twice. */
  lemma DedupRepeatLast<X(!new)>(x: X, y: X)
    requires x != y
    ensures Dedup([x, y, y]) == [x, y]
  {
    var s0: seq<X> := [];
    DedupSnoc(s0, x);
    var s1 := s0 + [x];
    DedupSnoc(s1, y);
    var s2 := s1 + [y];
    DedupSnoc(s2, y);
    assert s2 + [y] == [x, y, y];
  }

  /** A repeated pair gives one asset edge; the two directions of a pair
      stay two edges. */
  lemma FleetEntityGraph(sds: string, jam: string, bird: string, fleet: string, dc: string, bi: string, fo: string)
    requires Distinct(sds, jam, bird, fleet, dc, bi, fo)
    ensures var assets, edges := FleetCatalog(sds, jam, bird, fleet, dc, bi, fo), FleetEdges(sds, jam, bird, fleet);
      && EntityGraph(assets, edges).nodes == [sds, jam, bird, fleet]
      && EntityGraph(assets, edges).edges == [(bird, fleet), (jam, sds), (fleet, bird)]
  {
    var assets, d := FleetCatalog(sds, jam, bird, fleet, dc, bi, fo), FleetEdges(sds, jam, bird, fleet);
    assert Names(assets) == [sds, jam, bird, fleet];
    assert EndpointsKnown(assets, d) by {
      forall n | n in Endpoints(d) ensures n in Names(assets) {
        var e :| e in d && (n == e.0 || n == e.1);
      }
    }
    EntityGraphShape(assets, d);
    DedupRepeatTail((bird, fleet), (jam, sds), (fleet, bird));
  }

  /** The overview's nodes: the three areas in the order of their first
      asset. */
  lemma FleetAreas(sds: string, jam: string, bird: string, fleet: string, dc: string, bi: string, fo: string)
    requires Distinct(sds, jam, bird, fleet, dc, bi, fo)
    ensures Areas(FleetCatalog(sds, jam, bird, fleet, dc, bi, fo)) == [dc, bi, fo]
  {
    assert AreaColumn(FleetCatalog(sds, jam, bird, fleet, dc, bi, fo)) == [dc, dc, bi, fo];
    DedupRepeatHead(dc, bi, fo);
  }

  lemma FleetFinds(sds: string, jam: string, bird: string, fleet: string, dc: string, bi: string, fo: string)
    requires Distinct(sds, jam, bird, fleet, dc, bi, fo)
    ensures var assets := FleetCatalog(sds, jam, bird, fleet, dc, bi, fo);
      && Find(assets, sds) == Some(Plain(sds, dc)) && Find(assets, jam) == Some(Plain(jam, dc))
      && Find(assets, bird) == Some(Plain(bird, bi)) && Find(assets, fleet) == Some(Plain(fleet, fo))
  {
    var assets := FleetCatalog(sds, jam, bird, fleet, dc, bi, fo);
    assert Names(assets) == [sds, jam, bird, fleet];
    FindIdentical(assets, 0);
    FindIdentical(assets, 1);
    FindIdentical(assets, 2);
    FindIdentical(assets, 3);
  }

  /** The catalog facts the projection of the fleet edges depends on: HP SDS
      and JAM share an area, BIRD and Fleet Ops lie in two others. */
  ghost predicate FleetLookups(assets: seq<Asset>, sds: string, jam: string, bird: string, fleet: string,
                               s: Asset, j: Asset, b: Asset, f: Asset) {
    && Find(assets, sds) == Some(s) && Find(assets, jam) == Some(j)
    && Find(assets, bird) == Some(b) && Find(assets, fleet) == Some(f)
    && s.area == j.area && b.area != f.area
  }

  /** (BIRD, Fleet Ops) projects to its area pair; (JAM, HP SDS) to none. */
  lemma FleetProjectionFirstTwo(assets: seq<Asset>, sds: string, jam: string, bird: string, fleet: string,
                                s: Asset, j: Asset, b: Asset, f: Asset)
    requires FleetLookups(assets, sds, jam, bird, fleet, s, j, b, f)
    ensures ProjectEdges(assets, FleetEdges(sds, jam, bird, fleet)[..2]) == Ok([] + [(b.area, f.area)])
  {
    var es := FleetEdges(sds, jam, bird, fleet);
    assert es[0] == (bird, fleet) && es[1] == (jam, sds);
    var p1: seq<(string, string)> := [] + [(b.area, f.area)];
    assert es[..0] == [];
    ProjectStep(assets, es, 0, [], b, f);
    assert ProjectEdges(assets, es[..1]) == Ok(p1);
    ProjectStep(assets, es, 1, p1, j, s);
  }

  /** (Fleet Ops, BIRD) adds the reverse area pair. */
  lemma FleetProjectionThird(assets: seq<Asset>, sds: string, jam: string, bird: string, fleet: string,
                             s: Asset, j: Asset, b: Asset, f: Asset, p1: seq<(string, string)>)
    requires FleetLookups(assets, sds, jam, bird, fleet, s, j, b, f)
    requires ProjectEdges(assets, FleetEdges(sds, jam, bird, fleet)[..2]) == Ok(p1)
    ensures ProjectEdges(assets, FleetEdges(sds, jam, bird, fleet)[..3]) == Ok(p1 + [(f.area, b.area)])
  {
    var es := FleetEdges(sds, jam, bird, fleet);
    assert es[2] == (fleet, bird);
    ProjectStep(assets, es, 2, p1, f, b);
  }

  /** The repeat of (JAM, HP SDS) adds nothing. */
  lemma FleetProjectionFourth(assets: seq<Asset>, sds: string, jam: string, bird: string, fleet: string,
                              s: Asset, j: Asset, b: Asset, f: Asset, p2: seq<(string, string)>)
    requires FleetLookups(assets, sds, jam, bird, fleet, s, j, b, f)
    requires ProjectEdges(assets, FleetEdges(sds, jam, bird, fleet)[..3]) == Ok(p2)
    ensures ProjectEdges(assets, FleetEdges(sds, jam, bird, fleet)[..4]) == Ok(p2)
  {
    var es := FleetEdges(sds, jam, bird, fleet);
    assert es[3] == (jam, sds);
    ProjectStep(assets, es, 3, p2, j, s);
  }

  /** The repeat of (Fleet Ops, BIRD) adds its area pair again. */
  lemma FleetProjectionFifth(assets: seq<Asset>, sds: string, jam: string, bird: string, fleet: string,
                             s: Asset, j: Asset, b: Asset, f: Asset, p2: seq<(string, string)>)
    requires FleetLookups(assets, sds, jam, bird, fleet, s, j, b, f)
    requires ProjectEdges(assets, FleetEdges(sds, jam, bird, fleet)[..4]) == Ok(p2)
    ensures ProjectEdges(assets, FleetEdges(sds, jam, bird, fleet)) == Ok(p2 + [(f.area, b.area)])
  {
    var es := FleetEdges(sds, jam, bird, fleet);
    assert es[4] == (fleet, bird) && es[..5] == es;
    ProjectStep(assets, es, 4, p2, f, b);
  }

  /** The projection of the fleet edges over any catalog with those facts. */
  lemma FleetProjectionOver(assets: seq<Asset>, sds: string, jam: string, bird: string, fleet: string,
                            s: Asset, j: Asset, b: Asset, f: Asset)
    requires FleetLookups(assets, sds, jam, bird, fleet, s, j, b, f)
    ensures ProjectEdges(assets, FleetEdges(sds, jam, bird, fleet))
            == Ok([(b.area, f.area), (f.area, b.area), (f.area, b.area)])
  {
    var p1: seq<(string, string)> := [] + [(b.area, f.area)];
    var p2 := p1 + [(f.area, b.area)];
    FleetProjectionFirstTwo(assets, sds, jam, bird, fleet, s, j, b, f);
    FleetProjectionThird(assets, sds, jam, bird, fleet, s, j, b, f, p1);
    FleetProjectionFourth(assets, sds, jam, bird, fleet, s, j, b, f, p2);
    FleetProjectionFifth(assets, sds, jam, bird, fleet, s, j, b, f, p2);
    assert p2 + [(f.area, b.area)] == [(b.area, f.area), (f.area, b.area), (f.area, b.area)];
  }

  lemma FleetProjection(sds: string, jam: string, bird: string, fleet: string, dc: string, bi: string, fo: string)
    requires Distinct(sds, jam, bird, fleet, dc, bi, fo)
    ensures ProjectEdges(FleetCatalog(sds, jam, bird, fleet, dc, bi, fo), FleetEdges(sds, jam, bird, fleet))
            == Ok([(bi, fo), (fo, bi), (fo, bi)])
  {
    FleetFinds(sds, jam, bird, fleet, dc, bi, fo);
    FleetProjectionOver(FleetCatalog(sds, jam, bird, fleet, dc, bi, fo), sds, jam, bird, fleet,
                        Plain(sds, dc), Plain(jam, dc), Plain(bird, bi), Plain(fleet, fo));
  }

  /** The intra-area pair vanishes from the overview, and the three
      cross-area projections collapse to one area edge per direction. */
  lemma FleetOverview(sds: string, jam: string, bird: string, fleet: string, dc: string, bi: string, fo: string)
    requires Distinct(sds, jam, bird, fleet, dc, bi, fo)
    ensures OverviewGraph(FleetCatalog(sds, jam, bird, fleet, dc, bi, fo), FleetEdges(sds, jam, bird, fleet))
            == Ok(Graph([dc, bi, fo], [(bi, fo), (fo, bi)]))
  {
    FleetAreas(sds, jam, bird, fleet, dc, bi, fo);
    FleetProjection(sds, jam, bird, fleet, dc, bi, fo);
    DedupRepeatLast((bi, fo), (fo, bi));
  }

  /** The same with the catalog's own names and areas. */
  lemma FleetGraphsAsListed()
    ensures var assets := FleetCatalog("HP SDS", "JAM", "BIRD", "Fleet Ops",
                                       "Device Connectivity", "Business Intelligence", "Fleet Operations");
      var edges := FleetEdges("HP SDS", "JAM", "BIRD", "Fleet Ops");
      && EntityGraph(assets, edges).edges == [("BIRD", "Fleet Ops"), ("JAM", "HP SDS"), ("Fleet Ops", "BIRD")]
      && OverviewGraph(assets, edges)
         == Ok(Graph(["Device Connectivity", "Business Intelligence", "Fleet Operations"],
                     [("Business Intelligence", "Fleet Operations"), ("Fleet Operations", "Business Intelligence")]))
  {
    FleetEntityGraph("HP SDS", "JAM", "BIRD", "Fleet Ops", "Device Connectivity", "Business Intelligence", "Fleet Operations");
    FleetOverview("HP SDS", "JAM", "BIRD", "Fleet Ops", "Device Connectivity", "Business Intelligence", "Fleet Operations");
  }
}
