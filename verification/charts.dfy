/**
  The render stage's chart choice: the radio button's value selects one of
  four chart descriptions, each drawn over the current view.
 */
module Charts {
  import opened Wrappers
  import opened Players

  /** What the plotting call is asked to draw. */
  datatype Plot =
    | Bar(x: Column, y: Column, color: Column, text: Option<Column>)
    | Line(x: Column, y: Column, color: Column, markers: bool)
    | Pie(names: Column, title: string)

  /** A chart section: its subheader, the plot description and the rows it is drawn over. */
  datatype Chart = Chart(subheader: string, plot: Plot, data: seq<PlayerRecord>)

  /** The radio button's four choices, in the order shown; the first is the default. */
  const GRAPH_OPTIONS: seq<string> := ["대满贯 우승 비교", "승률 비교", "경기 출전 수 비교", "국가 분포"]

  /**
    The chart for a radio value, compared with each choice in turn. A value
    that matches no choice draws no chart.
   */
  function ChartFor(choice: string, view: seq<PlayerRecord>): (c: Option<Chart>)
    ensures c.Some? <==> choice in GRAPH_OPTIONS
    ensures c.Some? ==> c.value.data == view
  {
    if choice == "대满贯 우승 비교" then
      Some(Chart("🏆 선수별 대满贯 우승 수", Bar(PlayerName, GrandSlamWins, Country, Some(GrandSlamWins)), view))
    else if choice == "승률 비교" then
      Some(Chart("📈 선수별 승률 비교", Line(PlayerName, WinRate, Country, true), view))
    else if choice == "경기 출전 수 비교" then
      Some(Chart("🎾 선수별 경기 출전 수", Bar(PlayerName, MatchesPlayed, PlayerName, None), view))
    else if choice == "국가 분포" then
      Some(Chart("🌍 국가별 선수 분포", Pie(Country, "선수 국적 분포"), view))
    else None
  }

  /** Each of the four choices selects its own chart, and the four charts differ. */
  lemma ChartDispatchInjective(view: seq<PlayerRecord>)
    ensures forall i, j :: 0 <= i < j < |GRAPH_OPTIONS| ==>
      ChartFor(GRAPH_OPTIONS[i], view).Some? && ChartFor(GRAPH_OPTIONS[j], view).Some?
      && ChartFor(GRAPH_OPTIONS[i], view).value.plot != ChartFor(GRAPH_OPTIONS[j], view).value.plot
  {
    var plots := seq(4, i requires 0 <= i < 4 => ChartFor(GRAPH_OPTIONS[i], view).value.plot);
    assert plots == [Bar(PlayerName, GrandSlamWins, Country, Some(GrandSlamWins)),
                     Line(PlayerName, WinRate, Country, true),
                     Bar(PlayerName, MatchesPlayed, PlayerName, None),
                     Pie(Country, "선수 국적 분포")];
    forall i, j | 0 <= i < j < |GRAPH_OPTIONS|
      ensures ChartFor(GRAPH_OPTIONS[i], view).value.plot != ChartFor(GRAPH_OPTIONS[j], view).value.plot
    {
      assert plots[i] != plots[j];
    }
  }

  /** The four charts: which kind, which y column, and which column decides the colours. */
  lemma ChartChoices(view: seq<PlayerRecord>)
    ensures ChartFor("대满贯 우승 비교", view).value.plot == Bar(PlayerName, GrandSlamWins, Country, Some(GrandSlamWins))
    ensures ChartFor("승률 비교", view).value.plot == Line(PlayerName, WinRate, Country, true)
    ensures ChartFor("경기 출전 수 비교", view).value.plot == Bar(PlayerName, MatchesPlayed, PlayerName, None)
    ensures ChartFor("국가 분포", view).value.plot.Pie? && ChartFor("국가 분포", view).value.plot.names == Country
  {
  }

  /** Bar and line charts put player names on the x axis and a numeric column on the y axis. */
  lemma AxesWellTyped(choice: string, view: seq<PlayerRecord>)
    requires ChartFor(choice, view).Some? && !ChartFor(choice, view).value.plot.Pie?
    ensures ChartFor(choice, view).value.plot.x == PlayerName
    ensures ChartFor(choice, view).value.plot.y.IsNumeric()
  {
  }
}
