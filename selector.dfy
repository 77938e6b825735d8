/** The area selector: "Overview" followed by the area keys in Python's
    sorted order for strings (code-point lexicographic order). */
module Selector {

  /** Python's `<=` on str: compare code points left to right; a proper
      prefix comes first. */
  predicate StrLe(a: string, b: string) {
    a == [] || (b != [] && (a[0] < b[0] || (a[0] == b[0] && StrLe(a[1..], b[1..]))))
  }

  lemma {:induction false} StrLeTotal(a: string, b: string)
    ensures StrLe(a, b) || StrLe(b, a)
  {
    if a != [] && b != [] && a[0] == b[0] {
      StrLeTotal(a[1..], b[1..]);
    }
  }

  lemma {:induction false} StrLeTrans(a: string, b: string, c: string)
    requires StrLe(a, b) && StrLe(b, c)
    ensures StrLe(a, c)
  {
    if a != [] && a[0] == b[0] && b[0] == c[0] {
      StrLeTrans(a[1..], b[1..], c[1..]);
    }
  }

  predicate Sorted(s: seq<string>) {
    forall i, j :: 0 <= i < j < |s| ==> StrLe(s[i], s[j])
  }

  /** Inserts `x` before the first element it does not exceed. */
  function Insert(x: string, s: seq<string>): seq<string> {
    if s == [] then [x]
    else if StrLe(x, s[0]) then [x] + s
    else [s[0]] + Insert(x, s[1..])
  }


  lemma {:induction false} InsertPermutes(x: string, s: seq<string>)
    ensures multiset(Insert(x, s)) == multiset(s) + multiset{x}
  {
    if s != [] && !StrLe(x, s[0]) {
      InsertPermutes(x, s[1..]);
      assert s == [s[0]] + s[1..];
    }
  }

  /** A lower bound of `x` and of all of `s` bounds all of `Insert(x, s)`. */
  lemma {:induction false} InsertLowerBound(x: string, s: seq<string>, lo: string)
    requires StrLe(lo, x)
    requires forall k :: 0 <= k < |s| ==> StrLe(lo, s[k])
    ensures forall k :: 0 <= k < |Insert(x, s)| ==> StrLe(lo, Insert(x, s)[k])
  {
    if s != [] && !StrLe(x, s[0]) {
      InsertLowerBound(x, s[1..], lo);
    }
  }

  lemma {:induction false} InsertSorted(x: string, s: seq<string>)
    requires Sorted(s)
    ensures Sorted(Insert(x, s))
  {
    if s == [] {
    } else if StrLe(x, s[0]) {
      var r := [x] + s;
      forall i, j | 0 <= i < j < |r| ensures StrLe(r[i], r[j]) {
        if i == 0 && j > 1 {
          StrLeTrans(x, s[0], s[j - 1]);
        }
      }
    } else {
      StrLeTotal(x, s[0]);
      InsertSorted(x, s[1..]);
      InsertLowerBound(x, s[1..], s[0]);
      var t := Insert(x, s[1..]);
      var r := [s[0]] + t;
      assert Insert(x, s) == r;
      forall i, j | 0 <= i < j < |r| ensures StrLe(r[i], r[j]) {
        if i > 0 {
          assert r[i] == t[i - 1] && r[j] == t[j - 1];
        }
      }
    }
  }

  /** Python's `sorted` on a list of strings: the same strings, counted
      with multiplicity, in ascending order. */
  function Sort(s: seq<string>): (r: seq<string>)
    ensures Sorted(r)
    ensures multiset(r) == multiset(s)
  {
    if s == [] then []
    else
      var t := Sort(s[1..]);
      SortCons(s, t);
      Insert(s[0], t)
  }

  /** Inserting the head into the sorted tail sorts the whole list. */
  lemma SortCons(s: seq<string>, t: seq<string>)
    requires s != [] && Sorted(t) && multiset(t) == multiset(s[1..])
    ensures Sorted(Insert(s[0], t)) && multiset(Insert(s[0], t)) == multiset(s)
  {
    InsertSorted(s[0], t);
    InsertPermutes(s[0], t);
    assert s == [s[0]] + s[1..];
  }

  /** The label of the aggregated view, first entry of the selector. */
  const OverviewLabel: string := "Overview"

  /** The selector's entries: the overview label first, then every area
      key once per occurrence, in ascending order. */
  function SelectorItems(areas: seq<string>): (r: seq<string>)
    ensures |r| == |areas| + 1
    ensures r[0] == OverviewLabel
    ensures Sorted(r[1..])
    ensures multiset(r[1..]) == multiset(areas)
  {
    var sorted := Sort(areas);
    assert |multiset(sorted)| == |multiset(areas)|;
    assert ([OverviewLabel] + sorted)[1..] == sorted;
    [OverviewLabel] + sorted
  }

  /** Every entry of the selector is the overview label or an area key, and
      every area key is offered. */
  lemma SelectorOffers(areas: seq<string>, x: string)
    ensures x in SelectorItems(areas) <==> x == OverviewLabel || x in areas
  {
    assert x in Sort(areas) <==> x in multiset(Sort(areas));
  }
}
