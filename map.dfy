/**
 * POI styling for the map (map.py): a point of interest's Geoapify
 * categories pick a marker style by the first keyword, in a fixed order,
 * found in the lower-cased comma-joined category list, and the map's
 * legend lists each label once, after the target property.
 */
module PoiMap {
  import opened Common
  import opened PyStr

  /** A marker style: emoji, border colour, label. */
  datatype Style = Style(emoji: string, color: string, name: string)

  /** One row of the keyword table. */
  datatype Rule = Rule(keyword: string, style: Style)

  /** The style used when no keyword matches. */
  const DefaultStyle := Style("\U{1F4CD}", "#999999", "Other")

  /** The keyword table, in the order it is searched. */
  const Mapping: seq<Rule> := [
    Rule("catering", Style("\U{1F354}", "#FF9800", "Food/Drink")),
    Rule("education", Style("\U{1F393}", "#1A73E8", "Education")),
    Rule("leisure", Style("\U{1F333}", "#4CAF50", "Park/Leisure")),
    Rule("healthcare", Style("\U{1F3E5}", "#F44336", "Health")),
    Rule("commercial.supermarket", Style("\U{1F6D2}", "#9C27B0", "Grocery")),
    Rule("shopping", Style("\U{1F6CD}\U{FE0F}", "#9C27B0", "Shopping")),
    Rule("commercial", Style("\U{1F3E2}", "#607D8B", "Commercial")),
    Rule("worship", Style("\U{26EA}", "#795548", "Worship")),
    Rule("financial", Style("\U{1F3E6}", "#3F51B5", "Bank")),
    Rule("fuel", Style("\U{26FD}", "#212121", "Gas Station")),
    Rule("public_transport", Style("\U{1F686}", "#009688", "Transit"))
  ]

  /** The string searched: the categories joined with commas, lower-cased. */
  function CatString(categories: seq<string>): string {
    Lower(Join(categories, ','))
  }

  /** The index of the first rule, from `i` on, whose keyword occurs in `catStr`; `|Mapping|` when none does. */
  function FirstMatch(catStr: string, i: nat): (k: nat)
    requires i <= |Mapping|
    ensures i <= k <= |Mapping|
    ensures k < |Mapping| ==> Contains(catStr, Mapping[k].keyword)
    ensures forall j :: i <= j < k ==> !Contains(catStr, Mapping[j].keyword)
    decreases |Mapping| - i
  {
    if i == |Mapping| then i
    else if Contains(catStr, Mapping[i].keyword) then i
    else FirstMatch(catStr, i + 1)
  }

  /** The style `get_category_style` gives a category list. */
  function CategoryStyle(categories: seq<string>): Style {
    var k := FirstMatch(CatString(categories), 0);
    if k < |Mapping| then Mapping[k].style else DefaultStyle
  }

  /** `get_category_style`: the loop over the table with an early return. */
  method GetCategoryStyle(categoryList: seq<string>) returns (s: Style)
    ensures s == CategoryStyle(categoryList)
  {
    var catStr := Lower(Join(categoryList, ','));
    for i := 0 to |Mapping|
      invariant forall j :: 0 <= j < i ==> !Contains(catStr, Mapping[j].keyword)
    {
      if Contains(catStr, Mapping[i].keyword) {
        FirstMatchAt(catStr, i);
        return Mapping[i].style;
      }
    }
    FirstMatchAt(catStr, |Mapping|);
    return DefaultStyle;
  }

  /** The first match is the index before which no keyword occurs and at which one does, if any. */
  lemma FirstMatchAt(catStr: string, k: nat)
    requires k <= |Mapping|
    requires k < |Mapping| ==> Contains(catStr, Mapping[k].keyword)
    requires forall j :: 0 <= j < k ==> !Contains(catStr, Mapping[j].keyword)
    ensures FirstMatch(catStr, 0) == k
  {
  }

  /** The style is that of the first keyword, in table order, found in the category string. */
  lemma FirstKeywordWins(categories: seq<string>, k: nat)
    requires k < |Mapping|
    requires Contains(CatString(categories), Mapping[k].keyword)
    requires forall j :: 0 <= j < k ==> !Contains(CatString(categories), Mapping[j].keyword)
    ensures CategoryStyle(categories) == Mapping[k].style
  {
  }

  /** "Other" exactly when no keyword occurs. */
  lemma OtherIffNoKeyword(categories: seq<string>)
    ensures CategoryStyle(categories) == DefaultStyle <==>
            forall j :: 0 <= j < |Mapping| ==> !Contains(CatString(categories), Mapping[j].keyword)
  {
    var m := FirstMatch(CatString(categories), 0);
    if m < |Mapping| {
      assert Mapping[m].style.name != "Other";
    }
  }

  /** An empty category list has nothing to match. */
  lemma EmptyCategoriesOther()
    ensures CategoryStyle([]) == DefaultStyle
  {
    assert CatString([]) == [];
    OtherIffNoKeyword([]);
  }

  /**
   * "commercial.supermarket" comes before "commercial": a supermarket is a
   * Grocery, not Commercial, unless one of the four earlier keywords occurs.
   */
  lemma SupermarketIsGrocery(categories: seq<string>)
    requires Contains(CatString(categories), "commercial.supermarket")
    requires forall kw :: kw in ["catering", "education", "leisure", "healthcare"] ==> !Contains(CatString(categories), kw)
    ensures CategoryStyle(categories).name == "Grocery"
  {
    FirstKeywordWins(categories, 4);
  }

  /** `[s.lower() for s in categories]` */
  function LowerAll(categories: seq<string>): (r: seq<string>)
    ensures |r| == |categories|
  {
    seq(|categories|, i requires 0 <= i < |categories| => Lower(categories[i]))
  }

  lemma LowerAppend(a: string, b: string)
    ensures Lower(a + b) == Lower(a) + Lower(b)
  {
  }

  lemma {:induction false} JoinLower(categories: seq<string>)
    ensures Join(LowerAll(categories), ',') == Lower(Join(categories, ','))
    decreases |categories|
  {
    if |categories| > 1 {
      JoinLower(categories[1..]);
      assert LowerAll(categories)[1..] == LowerAll(categories[1..]);
      LowerAppend(categories[0] + [','], Join(categories[1..], ','));
      LowerAppend(categories[0], [',']);
    }
  }

  /** Matching ignores case: lower-casing every category first changes nothing. */
  lemma CaseInsensitive(categories: seq<string>)
    ensures CategoryStyle(LowerAll(categories)) == CategoryStyle(categories)
  {
    JoinLower(categories);
    var s := Join(categories, ',');
    assert Lower(Lower(s)) == Lower(s);
  }

  /** A point of interest's properties: its `categories` list and its `category`, when that is a string. */
  datatype Poi = Poi(categories: seq<string>, category: Option<string>)

  /** The categories styled: a string `category` takes the place of the list. */
  function PoiCategories(p: Poi): seq<string> {
    if p.category.Some? then [p.category.value] else p.categories
  }

  function PoiStyle(p: Poi): Style {
    CategoryStyle(PoiCategories(p))
  }

  /** The style of each point, in order. */
  function PoiStyles(pois: seq<Poi>): (styles: seq<Style>)
    ensures |styles| == |pois|
    ensures forall i :: 0 <= i < |pois| ==> styles[i] == PoiStyle(pois[i])
  {
    seq(|pois|, i requires 0 <= i < |pois| => PoiStyle(pois[i]))
  }

  /** One legend entry, label to (emoji, colour); the legend keeps insertion order as the dictionary does. */
  datatype Entry = Entry(name: string, emoji: string, color: string)

  const TargetEntry := Entry("Target Property", "\U{1F3E0}", "#1A73E8")

  function EntryOf(s: Style): Entry {
    Entry(s.name, s.emoji, s.color)
  }

  /** The legend's keys. */
  function Labels(legend: seq<Entry>): set<string> {
    set e | e in legend :: e.name
  }

  /** `if label not in legend_items: legend_items[label] = (emoji, color)` */
  function AddToLegend(legend: seq<Entry>, s: Style): seq<Entry> {
    if s.name in Labels(legend) then legend else legend + [EntryOf(s)]
  }

  /** The legend after markers of the given styles. */
  function LegendFrom(styles: seq<Style>): seq<Entry>
    decreases |styles|
  {
    if styles == [] then [TargetEntry]
    else AddToLegend(LegendFrom(styles[..|styles| - 1]), styles[|styles| - 1])
  }

  /** The legend `generate_map` returns for the given points of interest. */
  function LegendOf(pois: seq<Poi>): seq<Entry> {
    LegendFrom(PoiStyles(pois))
  }

  /** The legend built by `generate_map`; the markers themselves are drawing and not modelled. */
  method GenerateLegend(pois: seq<Poi>) returns (legend: seq<Entry>)
    ensures legend == LegendOf(pois)
  {
    ghost var styles := PoiStyles(pois);
    legend := [TargetEntry];
    for i := 0 to |pois|
      invariant legend == LegendFrom(styles[..i])
    {
      var p := pois[i];
      var cat := p.categories;
      if p.category.Some? {
        cat := [p.category.value];
      }
      var style := GetCategoryStyle(cat);
      if style.name !in Labels(legend) {
        legend := legend + [Entry(style.name, style.emoji, style.color)];
      }
      assert styles[..i + 1][..i] == styles[..i];
    }
    assert styles[..|pois|] == styles;
  }

  /** No style carries the target's label. */
  lemma StyleLabelNotTarget(categories: seq<string>)
    ensures CategoryStyle(categories).name != TargetEntry.name
  {
  }

  /** Adding a style keeps every entry already present and makes its label present. */
  lemma AddToLegendGrows(legend: seq<Entry>, s: Style)
    ensures forall e :: e in legend ==> e in AddToLegend(legend, s)
    ensures s.name in Labels(AddToLegend(legend, s))
    ensures s.name !in Labels(legend) ==> EntryOf(s) in AddToLegend(legend, s)
  {
    var l := AddToLegend(legend, s);
    if s.name !in Labels(legend) {
      assert l[|legend|] in l;
    }
  }

  /** The legend opens with the target property. */
  lemma {:induction false} LegendStartsWithTarget(styles: seq<Style>)
    ensures |LegendFrom(styles)| >= 1 && LegendFrom(styles)[0] == TargetEntry
    decreases |styles|
  {
    if styles != [] {
      LegendStartsWithTarget(styles[..|styles| - 1]);
    }
  }

  /** No label appears twice in the legend. */
  lemma {:induction false} LegendShape(styles: seq<Style>)
    requires forall i :: 0 <= i < |styles| ==> styles[i].name != TargetEntry.name
    ensures forall i, j :: 0 <= i < j < |LegendFrom(styles)| ==> LegendFrom(styles)[i].name != LegendFrom(styles)[j].name
    decreases |styles|
  {
    if styles != [] {
      var prev := styles[..|styles| - 1];
      LegendShape(prev);
      LegendStartsWithTarget(prev);
      var s := styles[|styles| - 1];
      var l0 := LegendFrom(prev);
      if s.name !in Labels(l0) {
        forall i | 0 <= i < |l0|
          ensures l0[i].name != s.name
        {
          assert l0[i] in l0;
        }
      }
    }
  }

  /** Every marker's label is in the legend. */
  lemma {:induction false} LegendCovers(styles: seq<Style>)
    ensures forall i :: 0 <= i < |styles| ==> styles[i].name in Labels(LegendFrom(styles))
    decreases |styles|
  {
    if styles != [] {
      var n := |styles| - 1;
      var prev := styles[..n];
      LegendCovers(prev);
      AddToLegendGrows(LegendFrom(prev), styles[n]);
      forall i | 0 <= i < n
        ensures styles[i].name in Labels(LegendFrom(styles))
      {
        assert styles[i] == prev[i];
        var e :| e in LegendFrom(prev) && e.name == prev[i].name;
        assert e in LegendFrom(styles);
      }
    }
  }

  /** Every label in the legend of the first `m` markers, other than the target's, comes from one of them. */
  lemma {:induction false} LabelSource(styles: seq<Style>, m: nat, x: string) returns (j: nat)
    requires m <= |styles|
    requires x in Labels(LegendFrom(styles[..m])) && x != TargetEntry.name
    ensures j < m && styles[j].name == x
    decreases m
  {
    if m > 0 {
      assert styles[..m][..m - 1] == styles[..m - 1];
      if x in Labels(LegendFrom(styles[..m - 1])) {
        j := LabelSource(styles, m - 1, x);
      } else {
        j := m - 1;
      }
    }
  }

  /** A marker whose label no earlier marker produced adds its entry. */
  lemma FirstOfLabelIsNew(styles: seq<Style>)
    requires styles != []
    requires forall i :: 0 <= i < |styles| ==> styles[i].name != TargetEntry.name
    requires forall j :: 0 <= j < |styles| - 1 ==> styles[j].name != styles[|styles| - 1].name
    ensures EntryOf(styles[|styles| - 1]) in LegendFrom(styles)
  {
    var n := |styles| - 1;
    var prev := styles[..n];
    var s := styles[n];
    if s.name in Labels(LegendFrom(prev)) {
      var j := LabelSource(styles, n, s.name);
      assert false;
    }
    AddToLegendGrows(LegendFrom(prev), s);
  }

  /** The entry of a label holds the style of the first marker that produced that label. */
  lemma {:induction false} LegendFirstStyle(styles: seq<Style>)
    requires forall i :: 0 <= i < |styles| ==> styles[i].name != TargetEntry.name
    ensures forall i :: 0 <= i < |styles| && (forall j :: 0 <= j < i ==> styles[j].name != styles[i].name) ==>
              EntryOf(styles[i]) in LegendFrom(styles)
    decreases |styles|
  {
    if styles != [] {
      var n := |styles| - 1;
      var prev := styles[..n];
      LegendFirstStyle(prev);
      AddToLegendGrows(LegendFrom(prev), styles[n]);
      forall i | 0 <= i < |styles| && (forall j :: 0 <= j < i ==> styles[j].name != styles[i].name)
        ensures EntryOf(styles[i]) in LegendFrom(styles)
      {
        if i < n {
          assert styles[i] == prev[i];
          assert forall j :: 0 <= j < i ==> prev[j] == styles[j];
        } else {
          FirstOfLabelIsNew(styles);
        }
      }
    }
  }

  /**
   * The legend of `generate_map`: the target first, labels once each, every
   * point's label present, each with the style of the first point showing it.
   */
  lemma Legend(pois: seq<Poi>)
    ensures |LegendOf(pois)| >= 1 && LegendOf(pois)[0] == TargetEntry
    ensures forall i, j :: 0 <= i < j < |LegendOf(pois)| ==> LegendOf(pois)[i].name != LegendOf(pois)[j].name
    ensures forall i :: 0 <= i < |pois| ==> PoiStyle(pois[i]).name in Labels(LegendOf(pois))
    ensures forall i :: 0 <= i < |pois| && (forall j :: 0 <= j < i ==> PoiStyle(pois[j]).name != PoiStyle(pois[i]).name) ==>
              EntryOf(PoiStyle(pois[i])) in LegendOf(pois)
  {
    var styles := PoiStyles(pois);
    forall i | 0 <= i < |styles|
      ensures styles[i].name != TargetEntry.name
    {
      StyleLabelNotTarget(PoiCategories(pois[i]));
    }
    LegendStartsWithTarget(styles);
    LegendShape(styles);
    LegendCovers(styles);
    LegendFirstStyle(styles);
  }
}
