/** The asset catalog: the assets in definition order, lookup by name, and
    the grouping of asset names by functional area. */
module Catalog {
  import opened Outcome
  import opened Sequences

  /** One catalog entry; `name` is its key in the asset table. */
  datatype Asset = Asset(
    name: string,
    area: string,
    description: string,
    keyFeatures: seq<string>,
    relatedSystems: seq<string>,
    dataFlow: string,
    businessImpact: string)

  function Names(assets: seq<Asset>): seq<string> {
    seq(|assets|, i requires 0 <= i < |assets| => assets[i].name)
  }

  function AreaColumn(assets: seq<Asset>): seq<string> {
    seq(|assets|, i requires 0 <= i < |assets| => assets[i].area)
  }

  /** The asset table is a dictionary: its keys are distinct. */
  predicate UniqueNames(assets: seq<Asset>) {
    NoDup(Names(assets))
  }

  /** The record stored under `name`, or None where the table raises
      KeyError. */
  function Find(assets: seq<Asset>, name: string): (r: Option<Asset>)
    ensures r.Some? <==> name in Names(assets)
    ensures r.Some? ==> r.value in assets && r.value.name == name
  {
    if assets == [] then None
    else
      assert Names(assets) == [assets[0].name] + Names(assets[1..]);
      if assets[0].name == name then Some(assets[0]) else Find(assets[1..], name)
  }

  /** Looking an asset up by its own name gives back that very record. */
  lemma {:induction false} FindIdentical(assets: seq<Asset>, i: nat)
    requires UniqueNames(assets) && i < |assets|
    ensures Find(assets, assets[i].name) == Some(assets[i])
  {
    if i > 0 {
      assert Names(assets)[0] != Names(assets)[i];
      assert Names(assets[1..]) == Names(assets)[1..];
      assert assets[1..][i - 1] == assets[i];
      FindIdentical(assets[1..], i - 1);
    }
  }

  /** The keys of the functional-area table, in the order they are first
      seen while walking the catalog; no key is repeated (which areas are
      keys is `AreaKeys`). */
  function Areas(assets: seq<Asset>): (r: seq<string>)
    ensures NoDup(r)
  {
    DedupSpec(AreaColumn(assets));
    Dedup(AreaColumn(assets))
  }

  /** The names of the assets of area `a`, in catalog order. */
  function Members(assets: seq<Asset>, a: string): (r: seq<string>)
    ensures forall n :: n in r <==> exists x :: x in assets && x.name == n && x.area == a
  {
    var picked := Filter(assets, (x: Asset) => x.area == a);
    forall n ensures n in Names(picked) <==> exists x :: x in picked && x.name == n {
      InNames(picked, n);
    }
    Names(picked)
  }

  lemma InNames(s: seq<Asset>, n: string)
    ensures n in Names(s) <==> exists x :: x in s && x.name == n
  {
    if n in Names(s) {
      var k :| 0 <= k < |s| && Names(s)[k] == n;
      assert s[k] in s;
    }
    if exists x :: x in s && x.name == n {
      var x :| x in s && x.name == n;
      var k :| 0 <= k < |s| && s[k] == x;
      assert Names(s)[k] == n;
    }
  }

  /** Members of a catalog extended by one asset. */
  lemma MembersSnoc(s: seq<Asset>, x: Asset, a: string)
    ensures Members(s + [x], a) == if x.area == a then Members(s, a) + [x.name] else Members(s, a)
  {
    MembersAppend(s, [x], a);
    var p := (y: Asset) => y.area == a;
    assert Filter([x], p) == if x.area == a then [x] else [];
  }

  /** Members of a catalog split in two are the members of the first part
      followed by those of the second: grouping keeps catalog order. */
  lemma MembersAppend(s: seq<Asset>, t: seq<Asset>, a: string)
    ensures Members(s + t, a) == Members(s, a) + Members(t, a)
  {
    var p := (x: Asset) => x.area == a;
    FilterAppend(s, t, p);
    var u, v := Filter(s, p), Filter(t, p);
    assert Names(u + v) == Names(u) + Names(v);
  }

  /** Every asset lies in exactly one group: the one keyed by its own area. */
  lemma GroupExactlyOne(assets: seq<Asset>, i: nat, b: string)
    requires UniqueNames(assets) && i < |assets|
    ensures assets[i].name in Members(assets, b) <==> b == assets[i].area
  {
    if assets[i].name in Members(assets, b) {
      var x :| x in assets && x.name == assets[i].name && x.area == b;
      var j :| 0 <= j < |assets| && assets[j] == x;
      assert Names(assets)[j] == Names(assets)[i];
    }
  }

  /** An area is a key of the table exactly when some asset belongs to it. */
  lemma AreaKeys(assets: seq<Asset>, a: string)
    ensures a in Areas(assets) <==> Members(assets, a) != []
  {
    DedupSpec(AreaColumn(assets));
    if a in Areas(assets) {
      var k :| 0 <= k < |assets| && AreaColumn(assets)[k] == a;
      assert assets[k].name in Members(assets, a);
    }
    if Members(assets, a) != [] {
      var m := Members(assets, a)[0];
      assert m in Members(assets, a);
      var x :| x in assets && x.name == m && x.area == a;
      var j :| 0 <= j < |assets| && assets[j] == x;
      assert AreaColumn(assets)[j] == a;
    }
  }

  /** `order` and `groups` are the area table of catalog `s`. */
  ghost predicate Grouped(s: seq<Asset>, order: seq<string>, groups: map<string, seq<string>>) {
    && order == Areas(s)
    && (forall a :: a in groups <==> a in order)
    && (forall a :: a in groups ==> groups[a] == Members(s, a))
  }

  /** One step of the grouping loop keeps the table in step with the
      catalog prefix it has walked. */
  lemma GroupStep(s: seq<Asset>, x: Asset, s': seq<Asset>, order: seq<string>, groups: map<string, seq<string>>,
                  order': seq<string>, groups': map<string, seq<string>>)
    requires s' == s + [x]
    requires Grouped(s, order, groups)
    requires order' == if x.area in groups then order else order + [x.area]
    requires groups' == var g := if x.area in groups then groups else groups[x.area := []];
                        g[x.area := g[x.area] + [x.name]]
    ensures Grouped(s', order', groups')
  {
    assert AreaColumn(s + [x]) == AreaColumn(s) + [x.area];
    DedupSnoc(AreaColumn(s), x.area);
    if x.area !in groups {
      AreaKeys(s, x.area);
    }
    forall a | a in groups'
      ensures groups'[a] == Members(s + [x], a)
    {
      MembersSnoc(s, x, a);
    }
  }

  /** One pass of the grouping loop's body: create the group of the asset's
      area on first sight, then append the asset to it. */
  method AddToGroup(ghost walked: seq<Asset>, x: Asset, order: seq<string>, groups: map<string, seq<string>>)
    returns (order': seq<string>, groups': map<string, seq<string>>)
    requires Grouped(walked, order, groups)
    ensures Grouped(walked + [x], order', groups')
  {
    var base := groups;
    order' := order;
    if x.area !in base {
      base := base[x.area := []];
      order' := order + [x.area];
    }
    groups' := base[x.area := base[x.area] + [x.name]];
    GroupStep(walked, x, walked + [x], order, groups, order', groups');
  }

  /** The grouping loop: fills the area table in place, appending each asset
      to the group of its area and creating the group on first sight. */
  method GroupByArea(assets: seq<Asset>) returns (order: seq<string>, groups: map<string, seq<string>>)
    ensures Grouped(assets, order, groups)
  {
    order, groups := [], map[];
    ghost var walked: seq<Asset> := [];
    var i := 0;
    while i < |assets|
      invariant 0 <= i <= |assets| && walked == assets[..i]
      invariant Grouped(walked, order, groups)
    {
      order, groups := AddToGroup(walked, assets[i], order, groups);
      walked := walked + [assets[i]];
      i := i + 1;
    }
    assert assets[..i] == assets;
  }
}
