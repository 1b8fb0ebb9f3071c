/**
  One pass of the dashboard script: the sidebar's control values go in, the
  page (an optional table and one chart) comes out. The widgets themselves
  are not modelled; only the values they hand to the script and their
  defaults are.
 */
module Dashboard {
  import opened Wrappers
  import opened Sequences
  import opened Players
  import opened Pipeline
  import Charts

  /** The values of the five sidebar widgets, as the script reads them. */
  datatype Controls = Controls(
    countries: seq<string>,
    search: string,
    sortOption: string,
    showTable: bool,
    graphType: string)

  /** The sort selector's choices, the headers of four numeric columns, in the order shown; the first is the default. */
  const SORT_OPTIONS: seq<string> :=
    [ByGrandSlamWins.Label(), ByWinRate.Label(), ByMatchesPlayed.Label(), ByBestRanking.Label()]

  /** The country selector's choices: the distinct countries of the table, in order of appearance. */
  function CountryOptions(): (r: seq<string>)
    ensures NoDuplicates(r)
    ensures forall i :: 0 <= i < |r| ==> r[i] in ToColumns(Dataset()).countries
    ensures forall i :: 0 <= i < |Dataset()| ==> Dataset()[i].country in r
  {
    var countries := ToColumns(Dataset()).countries;
    assert forall i :: 0 <= i < |Dataset()| ==> countries[i] == Dataset()[i].country;
    Distinct(countries)
  }

  /** The control values before the user touches anything. */
  function DefaultControls(): (c: Controls)
    ensures SortKeyNamed(c.sortOption) == Some(ByGrandSlamWins)
    ensures c.search == "" && c.showTable
    ensures c.graphType == Charts.GRAPH_OPTIONS[0]
    ensures forall i :: 0 <= i < |Dataset()| ==> Dataset()[i].country in c.countries
  {
    Controls(CountryOptions(), "", SORT_OPTIONS[0], true, Charts.GRAPH_OPTIONS[0])
  }

  /** What one pass of the script puts on the page. */
  datatype Page = Page(table: Option<seq<PlayerRecord>>, chart: Option<Charts.Chart>)

  /**
    One pass of the script. The sort selector can only hand back one of its
    four choices; for any other header this model produces no page, a value
    the script itself never receives.
   */
  function Render(c: Controls): (p: Option<Page>)
    ensures p.Some? <==> c.sortOption in SORT_OPTIONS
    ensures p.Some? ==> (p.value.table.Some? <==> c.showTable)
    ensures p.Some? ==> (p.value.chart.Some? <==> c.graphType in Charts.GRAPH_OPTIONS)
    ensures p.Some? && p.value.table.Some? ==> p.value.chart == Charts.ChartFor(c.graphType, p.value.table.value)
  {
    SortOptionNamed(c.sortOption);
    match SortKeyNamed(c.sortOption)
    case None => None
    case Some(key) =>
      var view := ComputeView(Dataset(), c.countries, c.search, key);
      Some(Page(if c.showTable then Some(view) else None, Charts.ChartFor(c.graphType, view)))
  }

  /** A header resolves to a sort column exactly when it is one of the selector's choices. */
  lemma SortOptionNamed(header: string)
    ensures SortKeyNamed(header).Some? <==> header in SORT_OPTIONS
  {
    if SortKeyNamed(header).Some? {
      var k := SortKeyNamed(header).value;
      assert header == k.Label();
      match k
      case ByGrandSlamWins => assert header == SORT_OPTIONS[0];
      case ByWinRate => assert header == SORT_OPTIONS[1];
      case ByMatchesPlayed => assert header == SORT_OPTIONS[2];
      case ByBestRanking => assert header == SORT_OPTIONS[3];
    }
  }

  /** Every sort choice the selector offers names a sort column, a different one each. */
  lemma SortOptionsNameKeys()
    ensures forall i :: 0 <= i < |SORT_OPTIONS| ==> SortKeyNamed(SORT_OPTIONS[i]).Some?
    ensures forall i, j :: 0 <= i < j < |SORT_OPTIONS| ==>
      SortKeyNamed(SORT_OPTIONS[i]) != SortKeyNamed(SORT_OPTIONS[j])
    ensures forall k: SortKey :: k.Label() in SORT_OPTIONS
  {
  }

  /**
    The page: it exists exactly when the sort choice is one of the four sort
    options; the table is there exactly when it is switched on and then shows
    the view; a chart is there exactly when the graph choice is one of the
    four, and then it is the chart that choice selects, drawn over the same
    view.
   */
  lemma RenderSpec(c: Controls)
    ensures Render(c).Some? <==> c.sortOption in SORT_OPTIONS
    ensures Render(c).Some? ==>
      var view := ComputeView(Dataset(), c.countries, c.search, SortKeyNamed(c.sortOption).value);
      && (Render(c).value.table.Some? <==> c.showTable)
      && (c.showTable ==> Render(c).value.table.value == view)
      && (Render(c).value.chart.Some? <==> c.graphType in Charts.GRAPH_OPTIONS)
      && (Render(c).value.chart.Some? ==> Render(c).value.chart.value.data == view)
      && Render(c).value.chart == Charts.ChartFor(c.graphType, view)
  {
  }

  /** The country choices are the six countries of the table, all selected by default. */
  lemma DefaultCountries()
    ensures CountryOptions() == ["세르비아", "스페인", "스위스", "미국", "러시아", "한국"]
    ensures DefaultControls().countries == CountryOptions()
  {
    RowsRoundTrip(Dataset());
    ColumnsRoundTrip(PLAYER_COLUMNS);
    assert FromColumns(PLAYER_COLUMNS).value == Dataset();
    CountriesDistinct();
    DistinctOfDistinct(PLAYER_COLUMNS.countries);
  }

  /**
    The default page shows the table and draws the grand slam bar chart:
    names across, titles up, coloured by country, labelled with the titles.
   */
  lemma DefaultPageChart()
    ensures Render(DefaultControls()).Some?
    ensures Render(DefaultControls()).value.table.Some?
    ensures Render(DefaultControls()).value.chart.Some?
    ensures Render(DefaultControls()).value.chart.value.plot
         == Charts.Bar(PlayerName, GrandSlamWins, Country, Some(GrandSlamWins))
  {
  }

  /** Every row of the table matches the default country selection and the empty search. */
  lemma DefaultsMatchAll(key: SortKey)
    ensures multiset(ComputeView(Dataset(), CountryOptions(), "", key)) == multiset(Dataset())
  {
    DefaultCountries();
    forall i | 0 <= i < |Dataset()| ensures Matches(Dataset()[i], CountryOptions(), "") {
      ContainsEmpty(Dataset()[i].name);
    }
    AllMatchView(Dataset(), CountryOptions(), "", key);
  }

  /** The default page lists the players by grand slam titles: 24, 23, 22, 20, 5, 0. */
  lemma DefaultView()
    ensures Render(DefaultControls()).Some?
    ensures Render(DefaultControls()).value.table == Some([DJOKOVIC, WILLIAMS, NADAL, FEDERER, SHARAPOVA, LEE])
  {
    DefaultCounts();
    ViewDetermined(Dataset(), CountryOptions(), "", ByGrandSlamWins, [DJOKOVIC, WILLIAMS, NADAL, FEDERER, SHARAPOVA, LEE]);
  }

  /** The default controls keep all six rows, each once. */
  lemma DefaultCounts()
    ensures HoldsMatches([DJOKOVIC, WILLIAMS, NADAL, FEDERER, SHARAPOVA, LEE], Dataset(), CountryOptions(), "")
  {
    DefaultCountries();
    forall x ensures multiset([DJOKOVIC, WILLIAMS, NADAL, FEDERER, SHARAPOVA, LEE])[x]
                     == if Matches(x, CountryOptions(), "") then multiset(Dataset())[x] else 0 {
      ContainsEmpty(x.name);
    }
  }

  /** Sorting by best ranking puts 이수민 (ranking 50) first, whatever order the tied rows take. */
  lemma BestRankingFirst()
    ensures |ComputeView(Dataset(), CountryOptions(), "", ByBestRanking)| == 6
    ensures ComputeView(Dataset(), CountryOptions(), "", ByBestRanking)[0] == LEE
  {
    var view := ComputeView(Dataset(), CountryOptions(), "", ByBestRanking);
    DefaultsMatchAll(ByBestRanking);
    ViewIsSortedFilter(Dataset(), CountryOptions(), "", ByBestRanking);
    RankingFirst(view);
  }

  /** In any sorted-by-ranking arrangement of the six rows, 이수민 comes first. */
  lemma RankingFirst(view: seq<PlayerRecord>)
    requires multiset(view) == multiset(Dataset())
    requires SortedDesc(view, ByBestRanking)
    ensures |view| == 6 && view[0] == LEE
  {
    assert |view| == |multiset(view)| == 6;
    assert LEE in multiset(view);
    var j :| 0 <= j < |view| && view[j] == LEE;
    assert Key(view[0], ByBestRanking) >= 50;
    assert view[0] in multiset(Dataset());
  }

  /** Selecting only 한국 shows exactly 이수민, under any sort column. */
  lemma KoreaOnly(key: SortKey)
    ensures ComputeView(Dataset(), ["한국"], "", key) == [LEE]
  {
    KoreaCounts();
    ViewDetermined(Dataset(), ["한국"], "", key, [LEE]);
  }

  /** Selecting only 한국 keeps exactly the row of 이수민. */
  lemma KoreaCounts()
    ensures HoldsMatches([LEE], Dataset(), ["한국"], "")
  {
    forall x ensures multiset([LEE])[x] == if Matches(x, ["한국"], "") then multiset(Dataset())[x] else 0 {
      ContainsEmpty(x.name);
    }
  }

  /** Selecting 세르비아 and 스페인 and sorting by grand slam titles shows 조코비치 (24), then Nadal (22). */
  lemma SerbiaAndSpain()
    ensures ComputeView(Dataset(), ["세르비아", "스페인"], "", ByGrandSlamWins) == [DJOKOVIC, NADAL]
  {
    SerbiaAndSpainCounts();
    ViewDetermined(Dataset(), ["세르비아", "스페인"], "", ByGrandSlamWins, [DJOKOVIC, NADAL]);
  }

  /** Selecting 세르비아 and 스페인 keeps exactly the rows of 조코비치 and Nadal. */
  lemma SerbiaAndSpainCounts()
    ensures HoldsMatches([DJOKOVIC, NADAL], Dataset(), ["세르비아", "스페인"], "")
  {
    forall x ensures x in [DJOKOVIC, NADAL] <==> x in Dataset() && Matches(x, ["세르비아", "스페인"], "") {
      ContainsEmpty(x.name);
    }
    DatasetDistinct();
    HoldsMatchesByMembership([DJOKOVIC, NADAL], Dataset(), ["세르비아", "스페인"], "");
  }

  /** Searching for 조코비치 among all countries shows exactly 노바크 조코비치, under any sort column. */
  lemma SearchDjokovic(key: SortKey)
    ensures ComputeView(Dataset(), CountryOptions(), "조코비치", key) == [DJOKOVIC]
  {
    SearchCounts();
    ViewDetermined(Dataset(), CountryOptions(), "조코비치", key, [DJOKOVIC]);
  }

  /** Searching for 조코비치 among all countries keeps exactly the row of 조코비치. */
  lemma SearchCounts()
    ensures HoldsMatches([DJOKOVIC], Dataset(), CountryOptions(), "조코비치")
  {
    var query := "조코비치";
    DefaultCountries();
    OnlyDjokovicHasQuery();
    forall x ensures x in [DJOKOVIC] <==> x in Dataset() && Matches(x, CountryOptions(), query) {
      if Matches(x, CountryOptions(), query) && x != DJOKOVIC {
        ContainsFirstChar(x.name, query);
      }
    }
    DatasetDistinct();
    HoldsMatchesByMembership([DJOKOVIC], Dataset(), CountryOptions(), query);
  }

  /** 노바크 조코비치 contains 조코비치, and no other name even contains its first letter. */
  lemma OnlyDjokovicHasQuery()
    ensures Contains(DJOKOVIC.name, "조코비치")
    ensures forall r :: r in Dataset() && r != DJOKOVIC ==> '조' !in r.name
  {
    ContainsIff(DJOKOVIC.name, "조코비치");
    assert OccursAt(DJOKOVIC.name, "조코비치", 4);
  }

  /** With nothing selected the table is empty and the chart is drawn over no rows; nothing fails. */
  lemma EmptySelectionPage(c: Controls)
    requires c.countries == [] && c.sortOption in SORT_OPTIONS && c.graphType in Charts.GRAPH_OPTIONS
    ensures Render(c).Some?
    ensures c.showTable ==> Render(c).value.table == Some([])
    ensures Render(c).value.chart.Some? && Render(c).value.chart.value.data == []
  {
    EmptySelection(Dataset(), c.search, SortKeyNamed(c.sortOption).value);
  }
}
