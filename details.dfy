/** The text of the detail panel: bullet lists, comma-joined lists, and the
    fixed layouts of the area and asset records. */
module Details {
  import opened Outcome
  import opened Catalog

  /** One line "- item" per item, in order: empty exactly for no items,
      and at least the three characters of "- " and the line break per
      item. */
  function Bullets(items: seq<string>): (r: string)
    ensures r == "" <==> items == []
    ensures |r| >= 3 * |items|
  {
    if items == [] then "" else "- " + items[0] + "\n" + Bullets(items[1..])
  }

  /** A bullet list grows by one line at its end, as the formatting loops
      append it. */
  lemma {:induction false} BulletsSnoc(items: seq<string>, x: string)
    ensures Bullets(items + [x]) == Bullets(items) + "- " + x + "\n"
  {
    if items == [] {
      assert items + [x] == [x];
    } else {
      assert (items + [x])[1..] == items[1..] + [x];
      BulletsSnoc(items[1..], x);
    }
  }

  /** The formatting loop shared by both records: one "- item" line
      appended per item, in order. */
  method AppendBullets(text: string, items: seq<string>) returns (r: string)
    ensures r == text + Bullets(items)
  {
    r := text;
    for i := 0 to |items|
      invariant r == text + Bullets(items[..i])
    {
      assert items[..i + 1] == items[..i] + [items[i]];
      BulletsSnoc(items[..i], items[i]);
      r := r + "- " + items[i] + "\n";
    }
    assert items[..|items|] == items;
  }

  /** Python's `sep.join(items)`: empty for no items, otherwise opening
      with the first item and closing with the last. */
  function Join(items: seq<string>, sep: string): (r: string)
    ensures items == [] ==> r == ""
    ensures items != [] ==> items[0] <= r
    ensures items != [] ==> var last := items[|items| - 1]; |last| <= |r| && r[|r| - |last|..] == last
  {
    if items == [] then ""
    else if |items| == 1 then items[0]
    else
      var tail := Join(items[1..], sep);
      var r := items[0] + sep + tail;
      assert r[|r| - |tail|..] == tail;
      r
  }

  /** The first line of `text`, up to its first line break, is `head`. */
  ghost predicate HeadedBy(text: string, head: string) {
    IndexOf(text, '\n') == Some(|head|) && text[..|head|] == head
  }

  /** A heading followed by a blank line opens a record. */
  lemma HeadedStart(head: string)
    requires '\n' !in head
    ensures HeadedBy(head + "\n\n", head)
  {
    IndexOfAfter(head, '\n', "\n");
    assert head + "\n\n" == head + ['\n'] + "\n";
  }

  /** Text appended after a first `c` does not move it. */
  lemma {:induction false} IndexOfExtend(x: string, y: string, c: char)
    requires c in x
    ensures IndexOf(x + y, c) == IndexOf(x, c)
    decreases |x|
  {
    if x[0] != c {
      assert (x + y)[1..] == x[1..] + y;
      IndexOfExtend(x[1..], y, c);
    }
  }

  /** Appending a line to a record keeps its heading. */
  lemma HeadedExtend(x: string, y: string, head: string)
    requires HeadedBy(x, head)
    ensures HeadedBy(x + y, head)
  {
    assert x[|head|] == '\n';
    IndexOfExtend(x, y, '\n');
    assert (x + y)[..|head|] == x[..|head|];
  }

  /** The layout of an area record, line by line: its name, its member
      assets as bullets, then its connected areas as bullets. The first
      line is the heading naming the area. */
  function AreaDetailsText(area: string, members: seq<string>, neighbours: seq<string>): (r: string)
    ensures '\n' !in area ==> HeadedBy(r, "Functional Area: " + area)
  {
    var head := "Functional Area: " + area;
    var l0 := head + "\n\n";
    var l1 := l0 + "Assets in this area:\n";
    var l2 := l1 + Bullets(members);
    var l3 := l2 + "\nConnected Areas:\n";
    var r := l3 + Bullets(neighbours);
    if '\n' in area then r
    else
      HeadedStart(head);
      HeadedExtend(l0, "Assets in this area:\n", head);
      HeadedExtend(l1, Bullets(members), head);
      HeadedExtend(l2, "\nConnected Areas:\n", head);
      HeadedExtend(l3, Bullets(neighbours), head);
      r
  }

  /** The layout of an asset record shown under the picked name `node`,
      line by line. The first line is the heading naming the asset. */
  function AssetDetailsText(node: string, a: Asset): (r: string)
    ensures '\n' !in node ==> HeadedBy(r, "Asset: " + node)
  {
    var head := "Asset: " + node;
    var l0 := head + "\n\n";
    var l1 := l0 + ("Functional Area: " + a.area + "\n\n");
    var l2 := l1 + ("Description: " + a.description + "\n\n");
    var l3 := l2 + "Key Features:\n";
    var l4 := l3 + Bullets(a.keyFeatures);
    var l5 := l4 + ("\nRelated Systems: " + Join(a.relatedSystems, ", ") + "\n\n");
    var l6 := l5 + ("Data Flow: " + a.dataFlow + "\n\n");
    var r := l6 + ("Business Impact: " + a.businessImpact);
    if '\n' in node then r
    else
      HeadedStart(head);
      HeadedExtend(l0, "Functional Area: " + a.area + "\n\n", head);
      HeadedExtend(l1, "Description: " + a.description + "\n\n", head);
      HeadedExtend(l2, "Key Features:\n", head);
      HeadedExtend(l3, Bullets(a.keyFeatures), head);
      HeadedExtend(l4, "\nRelated Systems: " + Join(a.relatedSystems, ", ") + "\n\n", head);
      HeadedExtend(l5, "Data Flow: " + a.dataFlow + "\n\n", head);
      HeadedExtend(l6, "Business Impact: " + a.businessImpact, head);
      r
  }

  /** The position of the first `c` in `s`. */
  function IndexOf(s: string, c: char): (r: Option<nat>)
    ensures r.None? <==> c !in s
    ensures r.Some? ==> r.value < |s| && s[r.value] == c && c !in s[..r.value]
  {
    if s == [] then None
    else if s[0] == c then Some(0)
    else
      match IndexOf(s[1..], c)
      case None => None
      case Some(k) =>
        assert s[..k + 1] == [s[0]] + s[1..][..k];
        Some(k + 1)
  }

  lemma IndexOfAfter(x: string, c: char, rest: string)
    requires c !in x
    ensures IndexOf(x + [c] + rest, c) == Some(|x|)
  {
    var s := x + [c] + rest;
    assert s[|x|] == c && s[..|x|] == x;
  }

  /** Reads a bullet list back into its items. */
  function ParseBullets(s: string): Option<seq<string>>
    decreases |s|
  {
    if s == [] then Some([])
    else if |s| < 2 || s[..2] != "- " then None
    else
      match IndexOf(s[2..], '\n')
      case None => None
      case Some(k) =>
        match ParseBullets(s[2 + k + 1..])
        case None => None
        case Some(rest) => Some([s[2..2 + k]] + rest)
  }

  /** One bullet line in front of a list is read back as one item in front
      of what the rest reads back as. */
  lemma ParseBulletsCons(x: string, tail: string)
    requires '\n' !in x
    ensures ParseBullets("- " + x + "\n" + tail)
            == match ParseBullets(tail)
               case None => None
               case Some(rest) => Some([x] + rest)
  {
    BulletLineParts(x, tail);
    IndexOfAfter(x, '\n', tail);
  }

  /** Where the parts of a bullet line sit in the text. */
  lemma BulletLineParts(x: string, tail: string)
    ensures var s := "- " + x + "\n" + tail;
      && |s| >= 2 && s[..2] == "- " && s[2..] == x + ['\n'] + tail
      && s[2..2 + |x|] == x && s[2 + |x| + 1..] == tail
  {
    var s := "- " + x + "\n" + tail;
    var body := x + ['\n'] + tail;
    assert s == "- " + body;
    assert body[..|x|] == x;
  }

  /** Items without line breaks are read back from their bullet list
      unchanged and in order: no item is lost, merged or reordered. */
  lemma {:induction false} BulletsRoundTrip(items: seq<string>)
    requires forall x :: x in items ==> '\n' !in x
    ensures ParseBullets(Bullets(items)) == Some(items)
  {
    if items != [] {
      assert items[0] in items;
      assert Bullets(items) == "- " + items[0] + "\n" + Bullets(items[1..]);
      ParseBulletsCons(items[0], Bullets(items[1..]));
      BulletsRoundTrip(items[1..]);
      assert items == [items[0]] + items[1..];
    }
  }

  /** Python's `s.split(c)`: the pieces between occurrences of `c`. */
  function SplitOn(s: string, c: char): seq<string>
    decreases |s|
  {
    match IndexOf(s, c)
    case None => [s]
    case Some(k) => [s[..k]] + SplitOn(s[k + 1..], c)
  }

  /** Every item but the first, with the blank that follows each comma. */
  function AfterCommas(items: seq<string>): seq<string> {
    seq(|items|, i requires 0 <= i < |items| => " " + items[i])
  }

  /** Splitting at the first `c` peels off the piece in front of it. */
  lemma SplitOnCons(head: string, c: char, rest: string)
    requires c !in head
    ensures SplitOn(head + [c] + rest, c) == [head] + SplitOn(rest, c)
  {
    var s := head + [c] + rest;
    IndexOfAfter(head, c, rest);
    assert s[..|head|] == head;
    assert s[|head| + 1..] == rest;
  }

  lemma AfterCommasCons(items: seq<string>)
    requires items != []
    ensures AfterCommas(items) == [" " + items[0]] + AfterCommas(items[1..])
  {
  }

  /** The ", " separator regrouped as a comma closing the text before it
      and a blank opening the text after it. */
  lemma CommaRegroup(p: string, x: string, j: string)
    ensures p + (x + ", " + j) == (p + x) + [','] + (" " + j)
  {
    assert ", " == [','] + " ";
  }

  lemma {:induction false} JoinSplitFrom(p: string, items: seq<string>)
    requires items != []
    requires ',' !in p && forall x :: x in items ==> ',' !in x
    ensures SplitOn(p + Join(items, ", "), ',') == [p + items[0]] + AfterCommas(items[1..])
    decreases |items|
  {
    var head := p + items[0];
    assert ',' !in head by {
      assert items[0] in items;
    }
    if |items| == 1 {
      assert p + Join(items, ", ") == head;
      assert AfterCommas(items[1..]) == [];
    } else {
      var rest, j := items[1..], Join(items[1..], ", ");
      assert Join(items, ", ") == items[0] + ", " + j;
      CommaRegroup(p, items[0], j);
      SplitOnCons(head, ',', " " + j);
      assert forall x :: x in rest ==> x in items;
      JoinSplitFrom(" ", rest);
      AfterCommasCons(rest);
    }
  }

  /** A comma-joined list keeps every item, duplicates included, in order:
      splitting it at the commas gives the items back, each but the first
      behind the blank of the ", " separator. */
  lemma JoinSplit(items: seq<string>)
    requires items != []
    requires forall x :: x in items ==> ',' !in x
    ensures SplitOn(Join(items, ", "), ',') == [items[0]] + AfterCommas(items[1..])
  {
    JoinSplitFrom("", items);
    assert "" + Join(items, ", ") == Join(items, ", ");
    assert "" + items[0] == items[0];
  }
}
