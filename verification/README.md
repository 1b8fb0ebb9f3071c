# Tennis career statistics dashboard — a Dafny model

The dashboard is a single Streamlit script. It has a fixed table of six
tennis players, with seven columns: 선수명 (name), 국가 (country), 나이 (age),
대满贯 우승 (grand slam titles), 경기 출전 수 (matches played), 승률(%)
(win rate) and 최고 랭킹 (best ranking). A sidebar holds five widgets:

- a country multiselect;
- a name search box;
- a sort-column selector;
- a "show table" checkbox;
- a chart-type radio.

Every pass of the script does four things:

1. It filters the table by country.
2. If the search text is non-empty, it keeps the rows whose name contains it.
3. It sorts the result by the chosen column, descending.
4. It shows the result as a table, when the checkbox is on, and as one of four charts.

This project models that pass with pure functions over values:

- `wrappers.dfy` — `Option`, for lookups that can miss.
- `sequences.dfy` (module `Sequences`) — the dataframe operations the script
  uses. These are a boolean-mask row filter (`Where`), first-occurrence `unique`
  (`Distinct`) and literal substring search (`Contains`). Each is paired with
  an independent characterisation.
- `players.dfy` (module `Players`) — the `PlayerRecord` row type, the
  `Column` headers (each spelled once), the column-wise dictionary literal, and the dataframe built from it, with its
  round trip to columns and back.
- `pipeline.dfy` (module `Pipeline`) — the filter → search → sort stage
  `ComputeView`. The sort is a descending insertion sort. The stage is proved
  to return exactly the matching rows, with their multiplicities, in
  descending key order. When no two rows tie on the key, that order is proved
  to be the only one.
- `charts.dfy` (module `Charts`) — the graph-type dispatch, from the radio
  value to the chart description.
- `dashboard.dfy` (module `Dashboard`) — the widget values, their defaults,
  one full pass of the script (`Render`), and the concrete views for the
  default controls and for several selections.

The table is a value, and every stage returns a new sequence. So the table
cannot change between passes. Two passes with the same control values give
the same view, because `ComputeView` and `Render` are functions.

## Model

| member | source | states |
|---|---|---|
| `Players.FromColumns` | streamlit_app.py:33 | The table can be built exactly when all seven columns have the same length, and it then has one row per entry. |
| `Players.FromColumnsRows` | streamlit_app.py:33 | Row i of the built table carries entry i of each column. |
| `Players.ColumnsRoundTrip` | streamlit_app.py:33 | Splitting the built table into columns gives back the dictionary it was built from. |
| `Players.RowsRoundTrip` | streamlit_app.py:33 | Building a table from the columns of a table gives back that table. |
| `Players.Dataset` | streamlit_app.py:23-33 | The dataframe built from the literal is the six records, in the literal's order. |
| `Players.CountriesDistinct` | streamlit_app.py:25 | The six countries in the literal are pairwise different. |
| `Players.DatasetDistinct` | streamlit_app.py:23-31 | No row of the table occurs twice. |
| `Players.DatasetWellFormed` | streamlit_app.py:23-31 | Names are unique, ages positive, counts non-negative, win rates within 0–100 and best rankings at least 1. |
| `Sequences.Where` | streamlit_app.py:68 | `frame[mask]`: no more rows than the input, and each kept row is a row of the input that the mask accepts. Its counts, membership, order and edge cases are stated by the lemmas `WhereCounts`, `WhereMembers`, `WhereIsSubsequence`, `WhereNone` and `WhereAll` below. |
| `Sequences.WhereCounts` | streamlit_app.py:68 | A boolean-mask filter keeps a row as many times as it occurs if the mask accepts it, and drops it otherwise. |
| `Sequences.WhereMembers` | streamlit_app.py:68 | A row is in the filtered frame iff it is in the input and the mask accepts it. |
| `Sequences.WhereIsSubsequence` | streamlit_app.py:68 | Mask filtering preserves the input order: its result is a subsequence of the input. |
| `Sequences.WhereNone` | streamlit_app.py:68 | A mask that accepts nothing gives an empty frame. |
| `Sequences.WhereAll` | streamlit_app.py:71 | A mask that accepts every row leaves the frame unchanged. |
| `Sequences.CountOfDistinct` | streamlit_app.py:23-31 | In a sequence without repeats every value occurs once or not at all. |
| `Sequences.Distinct` | streamlit_app.py:43-44 | `unique`: every value of the result comes from the column, every value of the column is in the result, and no value is repeated. Order is stated by `DistinctSpec`. |
| `Sequences.DistinctSpec` | streamlit_app.py:43-44 | `unique` returns every value of the column exactly once, as a subsequence of the column, and any two values of the result appear in the order of their first occurrences in the column. |
| `Sequences.DistinctOfDistinct` | streamlit_app.py:43-44 | On a column without repeated values, `unique` returns the column unchanged. |
| `Sequences.Contains` | streamlit_app.py:71 | `str.contains` on one name: a match needs a name at least as long as the query. The full meaning is `ContainsIff`. |
| `Sequences.ContainsIff` | streamlit_app.py:71 | The search test holds iff the query occurs at some position of the name, in both directions. |
| `Sequences.ContainsEmpty` | streamlit_app.py:70-71 | Every name contains the empty query. |
| `Sequences.ContainsFirstChar` | streamlit_app.py:71 | A name that contains a non-empty query contains the query's first character. |
| `Pipeline.SortKey.AsColumn` | streamlit_app.py:51-54 | Each sort option is the header of a numeric column of the table. Each header string is spelled once, on `Players.Column`. |
| `Pipeline.SortKeyNamed` | streamlit_app.py:51-54 | A header is resolved only to the sort column it names. |
| `Pipeline.SortKeyNamedLabel` | streamlit_app.py:73 | Looking up a sort column's own header gives back that column. |
| `Pipeline.FilterByCountry` | streamlit_app.py:68 | The `isin` filter: no more rows than the table, and every kept row's country is selected. Exact counts are stated by `FilteredCounts`. |
| `Pipeline.SearchByName` | streamlit_app.py:70-71 | The guarded search: it keeps only rows of its input, each of whose names contains a non-empty query. An empty query leaves the rows unchanged. |
| `Pipeline.InsertDesc` | streamlit_app.py:73 | One insertion step of the descending sort: the result is one longer and holds the inserted row. Its full contract is `InsertDescPerm` and `InsertDescSorted`. |
| `Pipeline.SortDesc` | streamlit_app.py:73 | `sort_values(ascending=False)`: the result has as many rows as the input. Permutation and order are stated by `SortDescSpec`. |
| `Pipeline.SortDescMembers` | streamlit_app.py:73 | Every row of the sorted result is a row of the input. |
| `Pipeline.PrependSorted` | streamlit_app.py:73 | A row whose key bounds all keys of a descending list may precede it. |
| `Pipeline.InsertDescPerm` | streamlit_app.py:73 | Inserting a row adds that row and nothing else. |
| `Pipeline.InsertDescSorted` | streamlit_app.py:73 | Inserting into a descending list keeps it descending. |
| `Pipeline.SortDescSpec` | streamlit_app.py:73 | `sort_values(ascending=False)` returns a permutation of its input in which every key is at least every later key. |
| `Pipeline.SameHead` | streamlit_app.py:73 | Two descending arrangements of the same rows, with no ties, start with the same row. |
| `Pipeline.SortedPermutationUnique` | streamlit_app.py:73 | With no tied keys there is only one descending arrangement, whatever tie-breaking the sort uses. |
| `Pipeline.ComputeView` | streamlit_app.py:68-73 | The whole filter, search and sort stage: the view is no longer than the table, and every shown row's country is selected. Its full meaning is `ComputeViewSpec`. |
| `Pipeline.FilteredCounts` | streamlit_app.py:68-71 | After the country filter and the guarded search, a row is kept as often as it occurs iff its country is selected and its name contains the query. |
| `Pipeline.ComputeViewSpec` | streamlit_app.py:68-73 | The view is in descending key order and holds exactly the matching rows, with the table's multiplicities. In particular, every shown row's country is in the selection. |
| `Pipeline.ViewIsSortedFilter` | streamlit_app.py:68-73 | The country filter and the search each keep the table's order, and the sort is a sorted permutation of what they leave. |
| `Pipeline.HoldsMatchesByMembership` | streamlit_app.py:68-73 | For tables without repeated rows, the expected rows are determined by membership alone. |
| `Pipeline.ViewDetermined` | streamlit_app.py:68-73 | A descending, tie-free list holding exactly the matching rows is the view. |
| `Pipeline.AllMatchView` | streamlit_app.py:68-73 | When every row matches, the view is a permutation of the whole table. |
| `Pipeline.EmptySelection` | streamlit_app.py:68 | An empty country selection gives an empty view, whatever the search text and sort column. |
| `Pipeline.EmptyQueryKeepsAll` | streamlit_app.py:70-71 | An empty search leaves the country-filtered rows untouched. Without the guard, an unguarded search for "" would keep every row too. |
| `Pipeline.ViewRowsFromTable` | streamlit_app.py:68-73 | Every shown row is an unchanged row of the table, and the view is no longer than the table. |
| `Charts.ChartFor` | streamlit_app.py:85-103 | A radio value draws a chart exactly when it is one of the four choices, and the chart is drawn over the current view. |
| `Charts.ChartDispatchInjective` | streamlit_app.py:60-63 | Each of the four radio choices selects a chart, and no two choices select the same plot. |
| `Charts.ChartChoices` | streamlit_app.py:85-103 | Grand slams: bar, y = 대满贯 우승, colour = 국가, bar labels = 대满贯 우승. Win rate: line with markers, colour = 국가. Matches: bar, colour = 선수명. Country distribution: pie on 국가. |
| `Charts.AxesWellTyped` | streamlit_app.py:87-97 | Bar and line charts put names on the x axis and a numeric column on the y axis. |
| `Dashboard.CountryOptions` | streamlit_app.py:43-44 | The country choices have no repeats, each is a country of the table, and every row's country is offered. |
| `Dashboard.DefaultControls` | streamlit_app.py:41-63 | The defaults: every row's country is selected, the search is empty, the sort resolves to 대满贯 우승, the table is shown, and the chart is the radio's first choice, 대满贯 우승 비교. |
| `Dashboard.Render` | streamlit_app.py:68-103 | One pass of the script. A page exists iff the sort choice is one of the four sort options. The table is there iff the checkbox is on. A chart is there iff the radio value is one of the four choices. When the table is shown, the chart is the one the radio value selects, drawn over the rows of the table. |
| `Dashboard.SortOptionNamed` | streamlit_app.py:51-54 | A header resolves to a sort column iff it is one of the selector's four options. |
| `Dashboard.SortOptionsNameKeys` | streamlit_app.py:51-54 | Every selector choice names a sort column, no two the same, and every sort column is offered. |
| `Dashboard.RenderSpec` | streamlit_app.py:73-103 | A page exists iff the sort choice is one of the four sort options. The table is shown iff the checkbox is on, and then it is the view. The chart is the one the radio value selects (`ChartFor`), drawn over the same view, and is there iff the radio value is one of the four. |
| `Dashboard.DefaultCountries` | streamlit_app.py:41-45 | The country choices, all selected by default, are the six countries of the literal, in order. |
| `Dashboard.DefaultPageChart` | streamlit_app.py:57-88 | The rendered default page shows the table and draws the grand slam bar chart: x = 선수명, y = 대满贯 우승, colour = 국가, labels = 대满贯 우승. |
| `Dashboard.DefaultsMatchAll` | streamlit_app.py:41-73 | Under the default selection and an empty search, the view is a permutation of the whole table. |
| `Dashboard.DefaultCounts` | streamlit_app.py:23-73 | The six players in grand slam order are exactly the rows the default view must hold. |
| `Dashboard.DefaultView` | streamlit_app.py:23-73 | The default page's table is 조코비치 (24), 윌리엄스 (23), Nadal (22), 페더러 (20), 샤라포바 (5), 이수민 (0). |
| `Dashboard.BestRankingFirst` | streamlit_app.py:30-73 | Sorting by 최고 랭킹 puts 이수민 (50) first among all six, whatever order the five players tied at 1 take. |
| `Dashboard.RankingFirst` | streamlit_app.py:30 | In any descending-by-ranking arrangement of the six rows, 이수민 comes first. |
| `Dashboard.KoreaOnly` | streamlit_app.py:68 | Selecting only 한국 shows exactly [이수민], under any sort column. |
| `Dashboard.KoreaCounts` | streamlit_app.py:25 | [이수민] holds exactly the rows whose country is 한국. |
| `Dashboard.SerbiaAndSpain` | streamlit_app.py:68-73 | Selecting 세르비아 and 스페인, sorted by grand slams, shows 조코비치 then Nadal. |
| `Dashboard.SerbiaAndSpainCounts` | streamlit_app.py:24-25 | [조코비치, Nadal] holds exactly the rows from 세르비아 or 스페인. |
| `Dashboard.SearchDjokovic` | streamlit_app.py:70-73 | Searching for 조코비치 with every country selected shows exactly [노바크 조코비치], under any sort column. |
| `Dashboard.SearchCounts` | streamlit_app.py:70-71 | [노바크 조코비치] holds exactly the rows whose name contains 조코비치. |
| `Dashboard.OnlyDjokovicHasQuery` | streamlit_app.py:24 | 노바크 조코비치 contains 조코비치, and no other name contains its first letter. |
| `Dashboard.EmptySelectionPage` | streamlit_app.py:68-103 | With nothing selected, any offered sort and chart still give a page. The table is empty and the chart is drawn over no rows. |

## Left out

- Page setup, title, description and the sidebar widgets themselves
  (streamlit_app.py:8-18, 38-63). These are UI plumbing. Only the values the
  widgets hand to the script, and their defaults, are modelled (`Controls`,
  `DefaultControls`).
- Drawing the table and the charts (`st.dataframe`, `px.bar`, `px.line`,
  `px.pie`, `st.plotly_chart`). This is foreign display code. A chart is
  modelled as the description passed to the plotting call, plus the rows it
  is drawn over. The per-country slice counts that `px.pie` computes are not
  modelled.
- Regular-expression semantics of `str.contains`. The dataframe library reads
  the search text as a regular expression, so metacharacters change its
  meaning or raise an error. `Contains` is literal substring search, so every
  search claim holds for queries without metacharacters only.
- `Pipeline.SortDescSpec`: the order of tied rows is not stated. The script
  sorts with the dataframe library's default sort kind, which is not
  documented as stable. `SortDesc` happens to be a stable insertion sort, but
  only sortedness and permutation are proved. Claims about concrete views are
  proved through `SortedPermutationUnique` or `RankingFirst`, so they hold
  for any tie order. A stable sort is not promised by the code, so none is
  claimed.
- `Dashboard.BestRankingFirst`: five players, not four, tie at best ranking 1
  (streamlit_app.py:30). Their relative order is not stated.
- Dataframe index labels and column dtypes. The win-rate column holds integers
  in the literal, so it is modelled as `int`.
- Sorting by any column other than the four sort options. The selectbox
  (streamlit_app.py:51-54) can only return one of its four options, so the
  script never sorts by 나이, 선수명 or 국가. The dataframe library would sort
  by those columns too, and only a header that is not a column at all would
  raise an error. `SortKeyNamed` resolves only the four options. For any
  other header, `Render` returning `None` is a choice of this model, not
  behaviour of the script.
- The country multiselect constrains its value to the offered countries.
  `Controls.countries` is any list of strings, and only membership in it
  matters.
