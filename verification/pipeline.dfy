/**
  The filter/sort stage: from the table and three control values (the selected
  countries, the search text and the sort column) to the ordered view of rows
  that the table and the chart show.
 */
module Pipeline {
  import opened Wrappers
  import opened Sequences
  import opened Players

  /** The four columns the view can be sorted by. */
  datatype SortKey = ByGrandSlamWins | ByWinRate | ByMatchesPlayed | ByBestRanking {

    /** The table column this key sorts by. */
    function AsColumn(): (c: Column)
      ensures c.IsNumeric()
    {
      match this
      case ByGrandSlamWins => GrandSlamWins
      case ByWinRate => WinRate
      case ByMatchesPlayed => MatchesPlayed
      case ByBestRanking => BestRanking
    }

    /** The column header that names this key. */
    function Label(): string {
      AsColumn().Header()
    }
  }

  /** The sort column named by a header; `None` for any header that is not one of the four. */
  function SortKeyNamed(header: string): (k: Option<SortKey>)
    ensures k.Some? ==> k.value.Label() == header
  {
    if header == ByGrandSlamWins.Label() then Some(ByGrandSlamWins)
    else if header == ByWinRate.Label() then Some(ByWinRate)
    else if header == ByMatchesPlayed.Label() then Some(ByMatchesPlayed)
    else if header == ByBestRanking.Label() then Some(ByBestRanking)
    else None
  }

  /** Looking a key's own header up gives back that key, so distinct keys have distinct headers. */
  lemma SortKeyNamedLabel(k: SortKey)
    ensures SortKeyNamed(k.Label()) == Some(k)
  {
  }

  /** The value of the sort column in a row. */
  function Key(r: PlayerRecord, k: SortKey): int {
    match k
    case ByGrandSlamWins => r.grandSlamWins
    case ByWinRate => r.winRate
    case ByMatchesPlayed => r.matchesPlayed
    case ByBestRanking => r.bestRanking
  }

  // ---------------------------------------------------------------------------
  // Filtering.
  // ---------------------------------------------------------------------------

  /** The country mask: the row's country is one of the selected ones. */
  function InCountries(selected: seq<string>): PlayerRecord -> bool {
    (r: PlayerRecord) => r.country in selected
  }

  /** The search mask: the row's name contains the query literally. */
  function NameHas(query: string): PlayerRecord -> bool {
    (r: PlayerRecord) => Contains(r.name, query)
  }

  /** Keep the rows whose country is selected; an empty selection keeps nothing. */
  function FilterByCountry(rows: seq<PlayerRecord>, selected: seq<string>): (r: seq<PlayerRecord>)
    ensures |r| <= |rows|
    ensures forall i :: 0 <= i < |r| ==> r[i].country in selected
  {
    Where(rows, InCountries(selected))
  }

  /** Keep the rows whose name contains the query, but only when the query is non-empty. */
  function SearchByName(rows: seq<PlayerRecord>, query: string): (r: seq<PlayerRecord>)
    ensures |r| <= |rows|
    ensures forall i :: 0 <= i < |r| ==> r[i] in rows
    ensures |query| > 0 ==> forall i :: 0 <= i < |r| ==> Contains(r[i].name, query)
    ensures |query| == 0 ==> r == rows
  {
    if |query| > 0 then Where(rows, NameHas(query)) else rows
  }

  // ---------------------------------------------------------------------------
  // Sorting, descending.
  // ---------------------------------------------------------------------------

  /** Every row's key is at least the key of every row after it. */
  predicate SortedDesc(s: seq<PlayerRecord>, k: SortKey) {
    forall i, j :: 0 <= i < j < |s| ==> Key(s[i], k) >= Key(s[j], k)
  }

  /** Insert `x` before the first row whose key does not exceed its own. */
  function InsertDesc(x: PlayerRecord, s: seq<PlayerRecord>, k: SortKey): (r: seq<PlayerRecord>)
    ensures |r| == |s| + 1 && x in r
  {
    if s == [] || Key(x, k) >= Key(s[0], k) then [x] + s
    else [s[0]] + InsertDesc(x, s[1..], k)
  }

  /** The rows ordered by the key, largest first (insertion sort). */
  function SortDesc(s: seq<PlayerRecord>, k: SortKey): (r: seq<PlayerRecord>)
    ensures |r| == |s|
  {
    if s == [] then [] else InsertDesc(s[0], SortDesc(s[1..], k), k)
  }

  /** A row whose key bounds every key of a sorted sequence can go in front of it. */
  lemma PrependSorted(h: PlayerRecord, t: seq<PlayerRecord>, k: SortKey)
    requires SortedDesc(t, k)
    requires forall y :: y in t ==> Key(h, k) >= Key(y, k)
    ensures SortedDesc([h] + t, k)
  {
    var s := [h] + t;
    forall i, j | 0 <= i < j < |s| ensures Key(s[i], k) >= Key(s[j], k) {
      assert s[j] == t[j - 1];
      if i > 0 {
        assert s[i] == t[i - 1];
      }
    }
  }

  /** Inserting a row adds exactly that row. */
  lemma {:induction false} InsertDescPerm(x: PlayerRecord, s: seq<PlayerRecord>, k: SortKey)
    ensures multiset(InsertDesc(x, s, k)) == multiset(s) + multiset{x}
  {
    if s != [] && Key(x, k) < Key(s[0], k) {
      InsertDescPerm(x, s[1..], k);
      assert s == [s[0]] + s[1..];
    }
  }

  /** Inserting into a descending sequence keeps it descending. */
  lemma {:induction false} InsertDescSorted(x: PlayerRecord, s: seq<PlayerRecord>, k: SortKey)
    requires SortedDesc(s, k)
    ensures SortedDesc(InsertDesc(x, s, k), k)
  {
    if s == [] || Key(x, k) >= Key(s[0], k) {
      forall y | y in s ensures Key(x, k) >= Key(y, k) {
        var j :| 0 <= j < |s| && s[j] == y;
        assert j == 0 || Key(s[0], k) >= Key(s[j], k);
      }
      PrependSorted(x, s, k);
    } else {
      var rest := s[1..];
      assert SortedDesc(rest, k);
      InsertDescSorted(x, rest, k);
      InsertDescPerm(x, rest, k);
      var t := InsertDesc(x, rest, k);
      forall y | y in t ensures Key(s[0], k) >= Key(y, k) {
        assert y in multiset(rest) + multiset{x};
        if y != x {
          var j :| 0 <= j < |rest| && rest[j] == y;
          assert s[j + 1] == y;
        }
      }
      PrependSorted(s[0], t, k);
    }
  }

  /** Sorting adds and drops nothing, and its result is in descending key order. */
  lemma {:induction false} SortDescSpec(s: seq<PlayerRecord>, k: SortKey)
    ensures multiset(SortDesc(s, k)) == multiset(s)
    ensures SortedDesc(SortDesc(s, k), k)
  {
    if s != [] {
      SortDescSpec(s[1..], k);
      InsertDescPerm(s[0], SortDesc(s[1..], k), k);
      InsertDescSorted(s[0], SortDesc(s[1..], k), k);
      assert s == [s[0]] + s[1..];
    }
  }

  /** No two rows share a key value. */
  predicate DistinctKeys(s: seq<PlayerRecord>, k: SortKey) {
    forall i, j :: 0 <= i < j < |s| ==> Key(s[i], k) != Key(s[j], k)
  }

  /** With no ties, two sorted permutations of the same rows start with the same row. */
  lemma SameHead(a: seq<PlayerRecord>, b: seq<PlayerRecord>, k: SortKey)
    requires SortedDesc(a, k) && SortedDesc(b, k)
    requires multiset(a) == multiset(b)
    requires DistinctKeys(a, k)
    requires a != []
    ensures b != [] && a[0] == b[0]
  {
    assert a[0] in multiset(b);
    var j :| 0 <= j < |b| && b[j] == a[0];
    assert b[0] in multiset(a);
    var i :| 0 <= i < |a| && a[i] == b[0];
    assert Key(a[0], k) >= Key(a[i], k);
    assert Key(b[0], k) >= Key(b[j], k);
  }

  /**
    When no two rows tie on the key, there is only one descending order of
    them: any two sorted permutations of the same rows are equal, whatever
    tie-breaking the sort uses.
   */
  lemma {:induction false} SortedPermutationUnique(a: seq<PlayerRecord>, b: seq<PlayerRecord>, k: SortKey)
    requires SortedDesc(a, k) && SortedDesc(b, k)
    requires multiset(a) == multiset(b)
    requires DistinctKeys(a, k)
    ensures a == b
  {
    if a == [] {
      assert |b| == |multiset(b)| == 0;
    } else {
      SameHead(a, b, k);
      assert a == [a[0]] + a[1..];
      assert b == [b[0]] + b[1..];
      assert multiset(a) == multiset{a[0]} + multiset(a[1..]);
      assert multiset(b) == multiset{a[0]} + multiset(b[1..]);
      forall y ensures multiset(a[1..])[y] == multiset(b[1..])[y] {
        assert multiset(a)[y] == multiset(b)[y];
      }
      assert multiset(a[1..]) == multiset(b[1..]);
      SortedPermutationUnique(a[1..], b[1..], k);
    }
  }

  // ---------------------------------------------------------------------------
  // The whole stage.
  // ---------------------------------------------------------------------------

  /** Country filter, then name search, then descending sort. */
  function ComputeView(rows: seq<PlayerRecord>, selected: seq<string>, query: string, key: SortKey): (r: seq<PlayerRecord>)
    ensures |r| <= |rows|
    ensures forall i :: 0 <= i < |r| ==> r[i].country in selected
  {
    var filtered := SearchByName(FilterByCountry(rows, selected), query);
    SortDescMembers(filtered, key);
    assert forall x :: x in filtered ==> x.country in selected;
    SortDesc(filtered, key)
  }

  /** Every row of the sorted sequence is a row of its input. */
  lemma SortDescMembers(s: seq<PlayerRecord>, k: SortKey)
    ensures forall i :: 0 <= i < |SortDesc(s, k)| ==> SortDesc(s, k)[i] in s
  {
    SortDescSpec(s, k);
    forall i | 0 <= i < |SortDesc(s, k)| ensures SortDesc(s, k)[i] in s {
      assert SortDesc(s, k)[i] in multiset(SortDesc(s, k));
    }
  }

  /** A row belongs in the view: its country is selected and its name contains the query. */
  predicate Matches(r: PlayerRecord, selected: seq<string>, query: string) {
    r.country in selected && Contains(r.name, query)
  }

  /** `expected` holds each row exactly as often as the view of `rows` must. */
  ghost predicate HoldsMatches(expected: seq<PlayerRecord>, rows: seq<PlayerRecord>, selected: seq<string>, query: string) {
    forall x :: multiset(expected)[x] == if Matches(x, selected, query) then multiset(rows)[x] else 0
  }

  /** The unsorted result of the two filters keeps each matching row as often as it occurs. */
  lemma FilteredCounts(rows: seq<PlayerRecord>, selected: seq<string>, query: string)
    ensures HoldsMatches(SearchByName(FilterByCountry(rows, selected), query), rows, selected, query)
  {
    var byCountry := FilterByCountry(rows, selected);
    forall x ensures multiset(SearchByName(byCountry, query))[x]
                     == if Matches(x, selected, query) then multiset(rows)[x] else 0 {
      WhereCounts(rows, InCountries(selected), x);
      if |query| > 0 {
        WhereCounts(byCountry, NameHas(query), x);
      } else {
        assert query == "";
        ContainsEmpty(x.name);
      }
    }
  }

  /**
    The view, completely: it is in descending key order, and it holds exactly
    the rows whose country is selected and whose name contains the query, each
    as often as the table does.
   */
  lemma ComputeViewSpec(rows: seq<PlayerRecord>, selected: seq<string>, query: string, key: SortKey)
    ensures SortedDesc(ComputeView(rows, selected, query, key), key)
    ensures HoldsMatches(ComputeView(rows, selected, query, key), rows, selected, query)
    ensures forall x :: x in ComputeView(rows, selected, query, key) <==> x in rows && Matches(x, selected, query)
  {
    var filtered := SearchByName(FilterByCountry(rows, selected), query);
    SortDescSpec(filtered, key);
    FilteredCounts(rows, selected, query);
    forall x ensures x in ComputeView(rows, selected, query, key) <==> x in rows && Matches(x, selected, query) {
      assert x in ComputeView(rows, selected, query, key) <==> x in multiset(ComputeView(rows, selected, query, key));
    }
  }

  /** The view is a sorted permutation of the filtered rows, which precede the sort in the table's order. */
  lemma ViewIsSortedFilter(rows: seq<PlayerRecord>, selected: seq<string>, query: string, key: SortKey)
    ensures IsSubsequence(FilterByCountry(rows, selected), rows)
    ensures IsSubsequence(SearchByName(FilterByCountry(rows, selected), query), FilterByCountry(rows, selected))
    ensures multiset(ComputeView(rows, selected, query, key)) == multiset(SearchByName(FilterByCountry(rows, selected), query))
    ensures SortedDesc(ComputeView(rows, selected, query, key), key)
  {
    var byCountry := FilterByCountry(rows, selected);
    WhereIsSubsequence(rows, InCountries(selected));
    if |query| > 0 {
      WhereIsSubsequence(byCountry, NameHas(query));
    } else {
      SubsequenceRefl(byCountry);
    }
    SortDescSpec(SearchByName(byCountry, query), key);
  }

  /** When every row matches, the view is a permutation of the whole table. */
  lemma AllMatchView(rows: seq<PlayerRecord>, selected: seq<string>, query: string, key: SortKey)
    requires forall i :: 0 <= i < |rows| ==> Matches(rows[i], selected, query)
    ensures multiset(ComputeView(rows, selected, query, key)) == multiset(rows)
  {
    ComputeViewSpec(rows, selected, query, key);
    forall x ensures multiset(ComputeView(rows, selected, query, key))[x] == multiset(rows)[x] {
      if x in rows {
        var i :| 0 <= i < |rows| && rows[i] == x;
      }
    }
  }

  /** For tables without repeated rows, holding the right rows is a matter of membership alone. */
  lemma HoldsMatchesByMembership(expected: seq<PlayerRecord>, rows: seq<PlayerRecord>, selected: seq<string>, query: string)
    requires NoDuplicates(expected) && NoDuplicates(rows)
    requires forall x :: x in expected <==> x in rows && Matches(x, selected, query)
    ensures HoldsMatches(expected, rows, selected, query)
  {
    forall x ensures multiset(expected)[x] == if Matches(x, selected, query) then multiset(rows)[x] else 0 {
      CountOfDistinct(expected, x);
      CountOfDistinct(rows, x);
    }
  }

  /**
    A row list in descending key order, without ties, that holds each row
    exactly as often as the view must, is the view.
   */
  lemma ViewDetermined(rows: seq<PlayerRecord>, selected: seq<string>, query: string, key: SortKey,
                       expected: seq<PlayerRecord>)
    requires SortedDesc(expected, key) && DistinctKeys(expected, key)
    requires HoldsMatches(expected, rows, selected, query)
    ensures ComputeView(rows, selected, query, key) == expected
  {
    var view := ComputeView(rows, selected, query, key);
    ComputeViewSpec(rows, selected, query, key);
    assert multiset(view) == multiset(expected);
    SortedPermutationUnique(expected, view, key);
  }

  /** Nothing is selected, so nothing is shown, whatever the search text and the sort column. */
  lemma EmptySelection(rows: seq<PlayerRecord>, query: string, key: SortKey)
    ensures ComputeView(rows, [], query, key) == []
  {
    WhereNone(rows, InCountries([]));
  }

  /**
    An empty search leaves the country-filtered rows untouched, and the guard on
    the empty query changes nothing: a search for "" would keep every row anyway.
   */
  lemma EmptyQueryKeepsAll(rows: seq<PlayerRecord>)
    ensures SearchByName(rows, "") == rows
    ensures Where(rows, NameHas("")) == rows
  {
    forall i | 0 <= i < |rows| ensures NameHas("")(rows[i]) {
      ContainsEmpty(rows[i].name);
    }
    WhereAll(rows, NameHas(""));
  }

  /** Every shown row is an unchanged row of the table: the stage only selects and reorders. */
  lemma ViewRowsFromTable(rows: seq<PlayerRecord>, selected: seq<string>, query: string, key: SortKey)
    ensures forall i :: 0 <= i < |ComputeView(rows, selected, query, key)| ==>
      ComputeView(rows, selected, query, key)[i] in rows
    ensures |ComputeView(rows, selected, query, key)| <= |rows|
  {
    var v := ComputeView(rows, selected, query, key);
    ComputeViewSpec(rows, selected, query, key);
    assert forall i :: 0 <= i < |v| ==> v[i] in v;
  }
}
