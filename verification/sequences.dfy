/**
  Sequence operations that the dashboard borrows from its dataframe library:
  a boolean-mask row filter, the first-occurrence `unique` of a column, and
  literal substring search on a string column. Each comes with an independent
  reference definition and the lemma that connects the two.
 */
module Sequences {

  /** `a` can be obtained from `b` by deleting elements, keeping the order of the rest. */
  predicate IsSubsequence<T(==)>(a: seq<T>, b: seq<T>)
    decreases |b|
  {
    a == [] || (b != [] && ((a[0] == b[0] && IsSubsequence(a[1..], b[1..])) || IsSubsequence(a, b[1..])))
  }

  /** No element occurs twice. */
  predicate NoDuplicates<T(==)>(s: seq<T>) {
    forall i, j :: 0 <= i < j < |s| ==> s[i] != s[j]
  }

  // ---------------------------------------------------------------------------
  // Boolean-mask filter: `frame[mask]` keeps the rows whose mask entry is true.
  // ---------------------------------------------------------------------------

  /** The rows of `rows` on which `keep` holds, in their original order. */
  function Where<T>(rows: seq<T>, keep: T -> bool): (r: seq<T>)
    ensures |r| <= |rows|
    ensures forall i :: 0 <= i < |r| ==> keep(r[i]) && r[i] in rows
  {
    if rows == [] then []
    else (if keep(rows[0]) then [rows[0]] else []) + Where(rows[1..], keep)
  }

  /** A row survives exactly as often as it occurs, if `keep` holds of it, and not at all otherwise. */
  lemma {:induction false} WhereCounts<T>(rows: seq<T>, keep: T -> bool, x: T)
    ensures multiset(Where(rows, keep))[x] == if keep(x) then multiset(rows)[x] else 0
  {
    if rows != [] {
      WhereCounts(rows[1..], keep, x);
      assert rows == [rows[0]] + rows[1..];
    }
  }

  /** Membership form of WhereCounts: a row is in the result iff it is an input row that `keep` accepts. */
  lemma WhereMembers<T>(rows: seq<T>, keep: T -> bool)
    ensures forall x :: x in Where(rows, keep) <==> x in rows && keep(x)
  {
    forall x ensures x in Where(rows, keep) <==> x in rows && keep(x) {
      WhereCounts(rows, keep, x);
    }
  }

  /** The filter preserves order: its result is a subsequence of its input. */
  lemma {:induction false} WhereIsSubsequence<T>(rows: seq<T>, keep: T -> bool)
    ensures IsSubsequence(Where(rows, keep), rows)
  {
    if rows != [] {
      WhereIsSubsequence(rows[1..], keep);
      var w := Where(rows, keep);
      if keep(rows[0]) {
        assert w[0] == rows[0] && w[1..] == Where(rows[1..], keep);
      } else {
        assert w == Where(rows[1..], keep);
      }
    }
  }

  /** Every sequence is a subsequence of itself. */
  lemma {:induction false} SubsequenceRefl<T>(s: seq<T>)
    ensures IsSubsequence(s, s)
  {
    if s != [] {
      SubsequenceRefl(s[1..]);
    }
  }

  /** A mask that rejects every row leaves nothing. */
  lemma {:induction false} WhereNone<T>(rows: seq<T>, keep: T -> bool)
    requires forall x :: !keep(x)
    ensures Where(rows, keep) == []
  {
    if rows != [] {
      WhereNone(rows[1..], keep);
    }
  }

  /** A mask that accepts every input row leaves the rows untouched. */
  lemma {:induction false} WhereAll<T>(rows: seq<T>, keep: T -> bool)
    requires forall i :: 0 <= i < |rows| ==> keep(rows[i])
    ensures Where(rows, keep) == rows
  {
    if rows != [] {
      assert keep(rows[0]);
      WhereAll(rows[1..], keep);
      assert rows == [rows[0]] + rows[1..];
    }
  }

  /** In a sequence without repeats every value occurs once or not at all. */
  lemma {:induction false} CountOfDistinct<T>(s: seq<T>, x: T)
    requires NoDuplicates(s)
    ensures multiset(s)[x] == if x in s then 1 else 0
  {
    if s != [] {
      CountOfDistinct(s[1..], x);
      assert s == [s[0]] + s[1..];
      assert s[0] !in s[1..];
    }
  }

  // ---------------------------------------------------------------------------
  // `unique`: the distinct values in order of first appearance.
  // ---------------------------------------------------------------------------

  /** The elements of `s` not in `seen`, each at its first occurrence. */
  function DistinctAfter<T(==)>(s: seq<T>, seen: set<T>): seq<T> {
    if s == [] then []
    else if s[0] in seen then DistinctAfter(s[1..], seen)
    else [s[0]] + DistinctAfter(s[1..], seen + {s[0]})
  }

  /** The distinct values of `s`, in order of first appearance. */
  function Distinct<T(==)>(s: seq<T>): (r: seq<T>)
    ensures forall i :: 0 <= i < |r| ==> r[i] in s
    ensures forall i :: 0 <= i < |s| ==> s[i] in r
    ensures NoDuplicates(r)
  {
    DistinctAfterSpec(s, {});
    DistinctAfterOrder(s, {});
    DistinctAfter(s, {})
  }

  /** The position of the first occurrence of `x` in `s`. */
  function FirstIndex<T(==)>(s: seq<T>, x: T): (i: nat)
    requires x in s
    ensures i < |s| && s[i] == x
    ensures forall j :: 0 <= j < i ==> s[j] != x
  {
    if s[0] == x then 0 else 1 + FirstIndex(s[1..], x)
  }

  /**
    What `DistinctAfter` keeps: the values of `s` outside `seen`, each once,
    as a subsequence of `s`.
   */
  lemma {:induction false} DistinctAfterSpec<T>(s: seq<T>, seen: set<T>)
    ensures forall x :: x in DistinctAfter(s, seen) <==> x in s && x !in seen
    ensures NoDuplicates(DistinctAfter(s, seen))
    ensures IsSubsequence(DistinctAfter(s, seen), s)
  {
    if s != [] {
      var r := DistinctAfter(s, seen);
      if s[0] in seen {
        DistinctAfterSpec(s[1..], seen);
        assert s == [s[0]] + s[1..];
      } else {
        DistinctAfterSpec(s[1..], seen + {s[0]});
        assert r[0] == s[0] && r[1..] == DistinctAfter(s[1..], seen + {s[0]});
        assert s == [s[0]] + s[1..];
      }
    }
  }

  /** The values `DistinctAfter` keeps come in the order in which each first occurs in `s`. */
  lemma {:induction false} DistinctAfterOrder<T>(s: seq<T>, seen: set<T>)
    ensures forall k :: 0 <= k < |DistinctAfter(s, seen)| ==> DistinctAfter(s, seen)[k] in s
    ensures forall i, j :: 0 <= i < j < |DistinctAfter(s, seen)| ==>
      FirstIndex(s, DistinctAfter(s, seen)[i]) < FirstIndex(s, DistinctAfter(s, seen)[j])
  {
    if s != [] {
      var r := DistinctAfter(s, seen);
      var seen' := if s[0] in seen then seen else seen + {s[0]};
      var rest := DistinctAfter(s[1..], seen');
      DistinctAfterOrder(s[1..], seen');
      forall k | 0 <= k < |rest| ensures rest[k] in s && rest[k] != s[0] {
        assert rest[k] in rest;
        DistinctAfterMember(s[1..], seen', rest[k]);
      }
      if s[0] in seen {
        assert r == rest;
        forall i, j | 0 <= i < j < |r| ensures FirstIndex(s, r[i]) < FirstIndex(s, r[j]) {
          FirstIndexTail(s, r[i]);
          FirstIndexTail(s, r[j]);
        }
      } else {
        assert r == [s[0]] + rest;
        forall i, j | 0 <= i < j < |r| ensures FirstIndex(s, r[i]) < FirstIndex(s, r[j]) {
          assert r[j] == rest[j - 1];
          FirstIndexTail(s, r[j]);
          if i > 0 {
            assert r[i] == rest[i - 1];
            FirstIndexTail(s, r[i]);
          }
        }
      }
    }
  }

  /** Each value `DistinctAfter` keeps comes from `s` and lies outside `seen`. */
  lemma DistinctAfterMember<T>(s: seq<T>, seen: set<T>, x: T)
    requires x in DistinctAfter(s, seen)
    ensures x in s && x !in seen
  {
    DistinctAfterSpec(s, seen);
  }

  /** Past the head, first occurrences in `s` are one further on than in its tail. */
  lemma FirstIndexTail<T>(s: seq<T>, y: T)
    requires y in s && y != s[0]
    ensures y in s[1..] && FirstIndex(s, y) == 1 + FirstIndex(s[1..], y)
  {
  }

  /**
    `Distinct(s)` holds every value of `s` exactly once, as a subsequence of
    `s`, in order of first appearance.
   */
  lemma DistinctSpec<T>(s: seq<T>)
    ensures forall x :: x in Distinct(s) <==> x in s
    ensures NoDuplicates(Distinct(s))
    ensures IsSubsequence(Distinct(s), s)
    ensures forall i, j :: 0 <= i < j < |Distinct(s)| ==> FirstIndex(s, Distinct(s)[i]) < FirstIndex(s, Distinct(s)[j])
  {
    DistinctAfterSpec(s, {});
    DistinctAfterOrder(s, {});
  }

  /** A sequence without repeats, none of whose values has been seen, is kept whole. */
  lemma {:induction false} DistinctAfterOfDistinct<T>(s: seq<T>, seen: set<T>)
    requires NoDuplicates(s)
    requires forall i :: 0 <= i < |s| ==> s[i] !in seen
    ensures DistinctAfter(s, seen) == s
  {
    if s != [] {
      assert forall i :: 1 <= i < |s| ==> s[i] != s[0];
      DistinctAfterOfDistinct(s[1..], seen + {s[0]});
      assert s == [s[0]] + s[1..];
    }
  }

  /** On a sequence without repeats, `Distinct` is the identity. */
  lemma DistinctOfDistinct<T>(s: seq<T>)
    requires NoDuplicates(s)
    ensures Distinct(s) == s
  {
    DistinctAfterOfDistinct(s, {});
  }

  // ---------------------------------------------------------------------------
  // Literal substring search.
  // ---------------------------------------------------------------------------

  /** `pat` occurs in `text` starting at position `i`. */
  ghost predicate OccursAt(text: string, pat: string, i: int) {
    0 <= i && i + |pat| <= |text| && text[i..i + |pat|] == pat
  }

  /** `pat` occurs in `text` as a contiguous piece, searched for left to right. */
  function Contains(text: string, pat: string): (b: bool)
    ensures b ==> |pat| <= |text|
    decreases |text|
  {
    if |pat| > |text| then false
    else if pat == text[..|pat|] then true
    else Contains(text[1..], pat)
  }

  /** The search agrees with the positional definition of an occurrence, in both directions. */
  lemma {:induction false} ContainsIff(text: string, pat: string)
    ensures Contains(text, pat) <==> exists i :: OccursAt(text, pat, i)
  {
    if |pat| > |text| {
      assert forall i :: !OccursAt(text, pat, i);
    } else if pat == text[..|pat|] {
      assert OccursAt(text, pat, 0);
    } else {
      ContainsIff(text[1..], pat);
      if Contains(text, pat) {
        var i :| OccursAt(text[1..], pat, i);
        assert text[1..][i..i + |pat|] == text[i + 1..i + 1 + |pat|];
        assert OccursAt(text, pat, i + 1);
      } else {
        forall i | OccursAt(text, pat, i) ensures false {
          assert i != 0;
          assert text[1..][i - 1..i - 1 + |pat|] == text[i..i + |pat|];
          assert OccursAt(text[1..], pat, i - 1);
        }
      }
    }
  }

  /** Every string contains the empty string. */
  lemma ContainsEmpty(text: string)
    ensures Contains(text, "")
  {
    assert "" == text[..0];
  }

  /** A non-empty pattern that occurs has its first character in the text. */
  lemma ContainsFirstChar(text: string, pat: string)
    requires |pat| > 0 && Contains(text, pat)
    ensures pat[0] in text
  {
    ContainsIff(text, pat);
    var i :| OccursAt(text, pat, i);
    assert text[i] == text[i..i + |pat|][0];
  }
}
