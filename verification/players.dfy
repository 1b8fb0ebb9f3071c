/**
  The data store: one player-statistics record per row, the column-wise
  literal the dashboard is built from, and the construction of the row-wise
  table from those columns.
 */
module Players {
  import opened Wrappers
  import opened Sequences

  /** One row of the table: 선수명, 국가, 나이, 대满贯 우승, 경기 출전 수, 승률(%), 최고 랭킹. */
  datatype PlayerRecord = PlayerRecord(
    name: string,
    country: string,
    age: int,
    grandSlamWins: int,
    matchesPlayed: int,
    winRate: int,
    bestRanking: int)

  /** The columns of the table; each header string is spelled here and nowhere else. */
  datatype Column = PlayerName | Country | Age | GrandSlamWins | MatchesPlayed | WinRate | BestRanking {

    /** The column's header, the key of the dictionary literal. */
    function Header(): string {
      match this
      case PlayerName => "선수명"
      case Country => "국가"
      case Age => "나이"
      case GrandSlamWins => "대满贯 우승"
      case MatchesPlayed => "경기 출전 수"
      case WinRate => "승률(%)"
      case BestRanking => "최고 랭킹"
    }

    /** The column holds numbers rather than text. */
    predicate IsNumeric() {
      !(PlayerName? || Country?)
    }
  }

  /** The table stored column by column, as the dictionary literal holds it. */
  datatype Columns = Columns(
    names: seq<string>,
    countries: seq<string>,
    ages: seq<int>,
    grandSlamWins: seq<int>,
    matchesPlayed: seq<int>,
    winRates: seq<int>,
    bestRankings: seq<int>)

  /** All seven columns have the same number of entries. */
  predicate SameLength(c: Columns) {
    var n := |c.names|;
    |c.countries| == n && |c.ages| == n && |c.grandSlamWins| == n
    && |c.matchesPlayed| == n && |c.winRates| == n && |c.bestRankings| == n
  }

  /** Row `i` of a column table whose columns have equal length. */
  function RowAt(c: Columns, i: nat): PlayerRecord
    requires SameLength(c) && i < |c.names|
  {
    PlayerRecord(c.names[i], c.countries[i], c.ages[i], c.grandSlamWins[i],
                 c.matchesPlayed[i], c.winRates[i], c.bestRankings[i])
  }

  /**
    Building a row-wise table from columns. Columns of different lengths are
    refused, as the dataframe constructor refuses them.
   */
  function FromColumns(c: Columns): (r: Option<seq<PlayerRecord>>)
    ensures r.Some? <==> SameLength(c)
    ensures r.Some? ==> |r.value| == |c.names|
  {
    if SameLength(c) then Some(seq(|c.names|, i requires 0 <= i < |c.names| => RowAt(c, i)))
    else None
  }

  /** Splitting a row-wise table into its columns. */
  function ToColumns(rows: seq<PlayerRecord>): (c: Columns)
    ensures SameLength(c) && |c.names| == |rows|
  {
    Columns(
      seq(|rows|, i requires 0 <= i < |rows| => rows[i].name),
      seq(|rows|, i requires 0 <= i < |rows| => rows[i].country),
      seq(|rows|, i requires 0 <= i < |rows| => rows[i].age),
      seq(|rows|, i requires 0 <= i < |rows| => rows[i].grandSlamWins),
      seq(|rows|, i requires 0 <= i < |rows| => rows[i].matchesPlayed),
      seq(|rows|, i requires 0 <= i < |rows| => rows[i].winRate),
      seq(|rows|, i requires 0 <= i < |rows| => rows[i].bestRanking))
  }

  /** Row `i` of the built table holds entry `i` of every column. */
  lemma FromColumnsRows(c: Columns, i: nat)
    requires SameLength(c) && i < |c.names|
    ensures FromColumns(c).Some?
    ensures FromColumns(c).value[i].name == c.names[i]
    ensures FromColumns(c).value[i].country == c.countries[i]
    ensures FromColumns(c).value[i].age == c.ages[i]
    ensures FromColumns(c).value[i].grandSlamWins == c.grandSlamWins[i]
    ensures FromColumns(c).value[i].matchesPlayed == c.matchesPlayed[i]
    ensures FromColumns(c).value[i].winRate == c.winRates[i]
    ensures FromColumns(c).value[i].bestRanking == c.bestRankings[i]
  {
  }

  /** Splitting the built table gives back the columns it was built from. */
  lemma ColumnsRoundTrip(c: Columns)
    requires SameLength(c)
    ensures FromColumns(c).Some? && ToColumns(FromColumns(c).value) == c
  {
    var back := ToColumns(FromColumns(c).value);
    assert back.names == c.names;
    assert back.countries == c.countries;
    assert back.ages == c.ages;
    assert back.grandSlamWins == c.grandSlamWins;
    assert back.matchesPlayed == c.matchesPlayed;
    assert back.winRates == c.winRates;
    assert back.bestRankings == c.bestRankings;
  }

  /** Building a table from the columns of a table gives back that table. */
  lemma RowsRoundTrip(rows: seq<PlayerRecord>)
    ensures FromColumns(ToColumns(rows)) == Some(rows)
  {
    var built := FromColumns(ToColumns(rows)).value;
    assert |built| == |rows|;
    forall i | 0 <= i < |rows| ensures built[i] == rows[i] {
    }
    assert built == rows;
  }

  // ---------------------------------------------------------------------------
  // The hard-coded sample data.
  // ---------------------------------------------------------------------------

  /** The dictionary literal: six players, one entry per column. */
  const PLAYER_COLUMNS: Columns := Columns(
    ["노바크 조코비치", "라파엘 Nadal", "로저 페더러", "세라나 윌리엄스", "마리아 샤라포바", "이수민"],
    ["세르비아", "스페인", "스위스", "미국", "러시아", "한국"],
    [36, 37, 42, 42, 36, 28],
    [24, 22, 20, 23, 5, 0],
    [1600, 1500, 1520, 1100, 800, 200],
    [83, 82, 82, 84, 79, 65],
    [1, 1, 1, 1, 1, 50])

  /** The six rows spelled out, in the literal's order. */
  const DJOKOVIC := PlayerRecord("노바크 조코비치", "세르비아", 36, 24, 1600, 83, 1)
  const NADAL := PlayerRecord("라파엘 Nadal", "스페인", 37, 22, 1500, 82, 1)
  const FEDERER := PlayerRecord("로저 페더러", "스위스", 42, 20, 1520, 82, 1)
  const WILLIAMS := PlayerRecord("세라나 윌리엄스", "미국", 42, 23, 1100, 84, 1)
  const SHARAPOVA := PlayerRecord("마리아 샤라포바", "러시아", 36, 5, 800, 79, 1)
  const LEE := PlayerRecord("이수민", "한국", 28, 0, 200, 65, 50)

  /** The dataframe built from the literal; it is a value and nothing rebinds it. */
  function Dataset(): (rows: seq<PlayerRecord>)
    ensures rows == [DJOKOVIC, NADAL, FEDERER, WILLIAMS, SHARAPOVA, LEE]
  {
    var built := FromColumns(PLAYER_COLUMNS);
    assert built.Some?;
    var rows := built.value;
    assert rows[0] == DJOKOVIC && rows[1] == NADAL && rows[2] == FEDERER;
    assert rows[3] == WILLIAMS && rows[4] == SHARAPOVA && rows[5] == LEE;
    rows
  }

  /** The country column of the literal has no repeated value. */
  lemma CountriesDistinct()
    ensures NoDuplicates(PLAYER_COLUMNS.countries)
  {
  }

  /** No row of the table occurs twice. */
  lemma DatasetDistinct()
    ensures NoDuplicates(Dataset())
  {
  }

  /** Player names are unique within the table, and every record is sane. */
  lemma DatasetWellFormed()
    ensures NoDuplicates(PLAYER_COLUMNS.names)
    ensures forall r :: r in Dataset() ==>
      |r.name| > 0 && |r.country| > 0 && r.age > 0 && r.grandSlamWins >= 0
      && r.matchesPlayed >= 0 && 0 <= r.winRate <= 100 && r.bestRanking >= 1
  {
  }
}
