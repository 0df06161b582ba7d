/** The home-page "Recent Articles" section: a row of pillar tabs, the
    articles of the selected tab (at most nine of them), the "Showing d of f
    articles" line, and the loading flag of the one-time fetch. */
module RecentArticles {
  import opened Options
  import opened JsText
  import opened JsArray
  import opened Types

  // ---------------------------------------------------------------------
  // Tabs and selection
  // ---------------------------------------------------------------------

  /** `Pillar | 'All'`. */
  datatype Selection = All | Only(pillar: Pillar)

  /** The tab row, in the order it is rendered. */
  const Tabs: seq<Selection> := [
    All,
    Only(ComplianceRegulation),
    Only(TechnologyOperations),
    Only(PracticeManagement),
    Only(ClientStrategy),
    Only(IndustryInsights)
  ]

  /** The text of a tab, which is also the value `setSelectedPillar` stores. */
  function TabLabel(t: Selection): string {
    match t
    case All => "All"
    case Only(p) => PillarName(p)
  }

  /** Every selection has exactly one tab, and the tab labels are distinct:
      exactly one tab is highlighted whatever is selected. */
  lemma TabsAreExhaustive(sel: Selection)
    ensures |Tabs| == 6 && Tabs[0] == All
    ensures forall i :: 1 <= i < 6 ==> Tabs[i] == Only(AllPillars[i - 1])
    ensures exists i :: 0 <= i < |Tabs| && Tabs[i] == sel
    ensures forall i, j :: 0 <= i < j < |Tabs| ==> TabLabel(Tabs[i]) != TabLabel(Tabs[j])
  {
    match sel
    case All => assert Tabs[0] == sel;
    case Only(p) =>
      match p
      case ComplianceRegulation => assert Tabs[1] == sel;
      case TechnologyOperations => assert Tabs[2] == sel;
      case PracticeManagement => assert Tabs[3] == sel;
      case ClientStrategy => assert Tabs[4] == sel;
      case IndustryInsights => assert Tabs[5] == sel;
  }

  /** Whether the selection shows article `a`. */
  predicate Selects(sel: Selection, a: Article) {
    sel.All? || a.pillar == PillarName(sel.pillar)
  }

  // ---------------------------------------------------------------------
  // What the section shows
  // ---------------------------------------------------------------------

  /** `filteredArticles`: everything for `'All'`, otherwise the articles of
      the selected pillar. */
  function Filtered(articles: seq<Article>, sel: Selection): (r: seq<Article>)
    ensures |r| <= |articles|
    ensures sel.All? ==> r == articles
  {
    if sel.All? then articles
    else Filter(articles, (a: Article) => a.pillar == PillarName(sel.pillar))
  }

  /** Both branches filter by `Selects`: `'All'` keeps the list unchanged,
      a pillar keeps exactly its articles. */
  lemma FilteredSpec(articles: seq<Article>, sel: Selection)
    ensures Filtered(articles, sel) == Filter(articles, (a: Article) => Selects(sel, a))
    ensures sel.All? ==> Filtered(articles, sel) == articles
    ensures forall a :: a in Filtered(articles, sel) ==> a in articles && Selects(sel, a)
    ensures forall j :: 0 <= j < |articles| && Selects(sel, articles[j]) ==>
      articles[j] in Filtered(articles, sel)
  {
    var keep := (a: Article) => Selects(sel, a);
    if sel.All? {
      FilterAll(articles, keep);
    } else {
      assert forall a :: Selects(sel, a) == (a.pillar == PillarName(sel.pillar));
      FilterSame(articles, keep, (a: Article) => a.pillar == PillarName(sel.pillar));
    }
    forall a | a in Filtered(articles, sel) ensures a in articles && Selects(sel, a) {
      var i :| 0 <= i < |Filtered(articles, sel)| && Filtered(articles, sel)[i] == a;
    }
  }

  /** Two predicates that agree everywhere filter alike. */
  lemma {:induction false} FilterSame(s: seq<Article>, p: Article -> bool, q: Article -> bool)
    requires forall a :: p(a) == q(a)
    ensures Filter(s, p) == Filter(s, q)
    decreases |s|
  {
    if |s| > 0 {
      FilterSame(s[1..], p, q);
    }
  }

  /** The selection keeps the articles in their original order: it
      distributes over concatenation and keeps or drops each article on its
      own. */
  lemma FilteredKeepsOrder(xs: seq<Article>, ys: seq<Article>, a: Article, sel: Selection)
    ensures Filtered(xs + ys, sel) == Filtered(xs, sel) + Filtered(ys, sel)
    ensures Filtered([a], sel) == if Selects(sel, a) then [a] else []
  {
    FilteredSpec(xs + ys, sel);
    FilteredSpec(xs, sel);
    FilteredSpec(ys, sel);
    FilteredSpec([a], sel);
    FilterAppend(xs, ys, (b: Article) => Selects(sel, b));
    assert [a][1..] == [];
  }

  /** At most this many articles are shown. */
  const PageSize := 9

  /** `filteredArticles.slice(0, 9)`. */
  function Displayed(articles: seq<Article>, sel: Selection): (r: seq<Article>)
    ensures |r| <= PageSize
    ensures |r| <= |Filtered(articles, sel)|
  {
    Slice(Filtered(articles, sel), 0, PageSize)
  }

  /** The grid shows the first min(9, |filtered|) selected articles. */
  lemma DisplayedIsFirstPage(articles: seq<Article>, sel: Selection)
    ensures var f := Filtered(articles, sel);
      |Displayed(articles, sel)| == (if |f| < PageSize then |f| else PageSize) &&
      Displayed(articles, sel) == f[..|Displayed(articles, sel)|]
  {
    SliceHead(Filtered(articles, sel), PageSize);
  }

  /** The empty-state paragraph replaces the grid when nothing is displayed. */
  predicate ShowsEmptyMessage(articles: seq<Article>, sel: Selection) {
    |Displayed(articles, sel)| == 0
  }

  /** The empty-state message appears exactly when no loaded article is
      selected: for `'All'`, when nothing is loaded. */
  lemma EmptyMessageIffNoneSelected(articles: seq<Article>, sel: Selection)
    ensures ShowsEmptyMessage(articles, sel) <==>
      forall j :: 0 <= j < |articles| ==> !Selects(sel, articles[j])
    ensures sel.All? ==> (ShowsEmptyMessage(articles, sel) <==> articles == [])
  {
    DisplayedIsFirstPage(articles, sel);
    FilteredSpec(articles, sel);
    if !ShowsEmptyMessage(articles, sel) {
      var f := Filtered(articles, sel);
      assert f[0] in f;
      var j :| 0 <= j < |articles| && articles[j] == f[0];
    }
  }

  /** ` in <pillar>` after a pillar tab, nothing after `'All'`. */
  function SelectionSuffix(sel: Selection): string {
    match sel
    case All => ""
    case Only(p) => " in " + PillarName(p)
  }

  /** `Showing {displayed.length} of {filtered.length} articles` followed by
      the selection suffix. */
  function CountText(articles: seq<Article>, sel: Selection): string {
    "Showing " + IntToString(|Displayed(articles, sel)|) + " of " +
    IntToString(|Filtered(articles, sel)|) + " articles" + SelectionSuffix(sel)
  }

  /** The two numbers of the count line read back as the number shown,
      min(9, f), and the number selected, f. */
  lemma CountTextReadsBack(articles: seq<Article>, sel: Selection)
    ensures var f := |Filtered(articles, sel)|;
      exists d, t :: CountText(articles, sel) == "Showing " + d + " of " + t + " articles" + SelectionSuffix(sel) &&
        ParseInt(d) == Some(if f < PageSize then f else PageSize) && ParseInt(t) == Some(f)
  {
    DisplayedIsFirstPage(articles, sel);
    var d := IntToString(|Displayed(articles, sel)|);
    var t := IntToString(|Filtered(articles, sel)|);
    ParseIntToString(|Displayed(articles, sel)|);
    ParseIntToString(|Filtered(articles, sel)|);
    assert CountText(articles, sel) == "Showing " + d + " of " + t + " articles" + SelectionSuffix(sel);
  }

  /** The count line ends in " articles" exactly when the `'All'` tab is
      selected; after a pillar tab it ends in ` in <pillar>`. */
  lemma SuffixOnlyWhenFiltered(articles: seq<Article>, sel: Selection)
    ensures var c := CountText(articles, sel);
      sel.Only? ==> |c| >= |SelectionSuffix(sel)| && c[|c| - |SelectionSuffix(sel)|..] == SelectionSuffix(sel)
    ensures var c := CountText(articles, sel);
      |c| >= 9 && (c[|c| - 9..] == " articles" <==> sel.All?)
  {
    var c := CountText(articles, sel);
    var head := "Showing " + IntToString(|Displayed(articles, sel)|) + " of " +
      IntToString(|Filtered(articles, sel)|) + " articles";
    var tail := SelectionSuffix(sel);
    assert c == head + tail;
    assert head[|head| - 9..] == " articles";
    if sel.All? {
      assert c == head;
    } else {
      SuffixEnding(sel.pillar);
      assert c[|c| - |tail|..] == tail;
      assert c[|c| - 9..] == tail[|tail| - 9..];
    }
  }

  /** No pillar suffix ends in " articles". */
  lemma SuffixEnding(p: Pillar)
    ensures var t := SelectionSuffix(Only(p)); |t| >= 9 && t[|t| - 9..] != " articles"
  {
    var t := SelectionSuffix(Only(p));
    match p
    case ComplianceRegulation => assert t[|t| - 1] == 'n';
    case TechnologyOperations => assert t[|t| - 2] == 'n';
    case PracticeManagement => assert t[|t| - 2] == 'n';
    case ClientStrategy => assert t[|t| - 2] == 'g';
    case IndustryInsights => assert t[|t| - 2] == 't';
  }

  // ---------------------------------------------------------------------
  // The component state
  // ---------------------------------------------------------------------

  class RecentArticlesSection {
    var selectedPillar: Selection
    var articles: seq<Article>
    var loading: bool

    /** Nothing is loaded before the fetch settles. */
    ghost predicate Valid()
      reads this`articles, this`loading
    {
      loading ==> articles == []
    }

    constructor()
      ensures Valid()
      ensures selectedPillar == All && articles == [] && loading
    {
      selectedPillar := All;
      articles := [];
      loading := true;
    }

    /** A tab was clicked. */
    method SelectTab(t: Selection)
      requires Valid()
      modifies this`selectedPillar
      ensures Valid() && selectedPillar == t
    {
      selectedPillar := t;
    }

    /** `getAllArticles()` resolved with `data`. */
    method FetchResolved(data: seq<Article>)
      modifies this`articles, this`loading
      ensures Valid() && articles == data && !loading
    {
      articles := data;
      loading := false;
    }

    /** `getAllArticles()` rejected: loading ends and nothing is loaded. */
    method FetchRejected()
      requires Valid()
      modifies this`loading
      ensures Valid() && !loading
      ensures articles == old(articles)
    {
      loading := false;
    }

    /** The articles on the grid. */
    function DisplayedArticles(): (r: seq<Article>)
      reads this`articles, this`selectedPillar
      ensures r == Displayed(articles, selectedPillar)
      ensures |r| <= PageSize
      ensures forall a :: a in r ==> a in articles && Selects(selectedPillar, a)
    {
      DisplayedIsFirstPage(articles, selectedPillar);
      FilteredSpec(articles, selectedPillar);
      var r := Displayed(articles, selectedPillar);
      assert forall a :: a in r ==> a in Filtered(articles, selectedPillar);
      r
    }

    /** The flag is never read when rendering: while the fetch is pending
        the section shows the empty-state message. */
    lemma PendingShowsEmptyMessage()
      requires Valid() && loading
      ensures ShowsEmptyMessage(articles, selectedPillar)
    {
      EmptyMessageIffNoneSelected(articles, selectedPillar);
    }
  }
}
