/**
 * The year markers both scripts print: a marker goes before an entry whose
 * year differs from that of the entry printed just before it, and before the
 * first entry.
 */
module Markers {

  /** The years of the printed entries, in order, each read off its entry by `year`. */
  function YearsOf<T>(es: seq<T>, year: T -> nat): (ys: seq<nat>)
    ensures |ys| == |es| && forall i :: 0 <= i < |es| ==> ys[i] == year(es[i])
  {
    seq(|es|, i requires 0 <= i < |es| => year(es[i]))
  }

  /** Whether a marker goes before the i-th of the printed entries, given their years. */
  predicate NewYear(years: seq<nat>, i: int)
    requires 0 <= i < |years|
  {
    i == 0 || years[i - 1] != years[i]
  }

  /** The years of the markers for the first n entries, in the order they are printed. */
  function MarkerYears(years: seq<nat>, n: int): (m: seq<nat>)
    requires 0 <= n <= |years|
    ensures |m| <= n
  {
    if n == 0 then [] else MarkerYears(years, n - 1) + (if NewYear(years, n - 1) then [years[n - 1]] else [])
  }

  predicate Ascending(years: seq<nat>)
  {
    forall i, j :: 0 <= i < j < |years| ==> years[i] <= years[j]
  }

  /**
   * The markers m for the first n entries: they rise strictly, every year of
   * those entries has one, each names one of those years, and the last is the
   * year of the last entry (no entries, no markers).
   */
  predicate OnePerYear(years: seq<nat>, n: int, m: seq<nat>)
    requires 0 <= n <= |years|
  {
    && (forall a, b :: 0 <= a < b < |m| ==> m[a] < m[b])
    && (forall i :: 0 <= i < n ==> years[i] in m)
    && (forall y :: y in m ==> exists i :: 0 <= i < n && years[i] == y)
    && (if n == 0 then m == [] else |m| > 0 && m[|m| - 1] == years[n - 1])
  }

  /** When the years never go down, every year gets exactly one marker. */
  lemma {:induction false} OneMarkerPerYear(years: seq<nat>, n: int)
    requires 0 <= n <= |years| && Ascending(years)
    ensures OnePerYear(years, n, MarkerYears(years, n))
  {
    if n > 0 {
      OneMarkerPerYear(years, n - 1);
      var m := MarkerYears(years, n - 1);
      if NewYear(years, n - 1) {
        MarkerAppend(years, m, n);
        assert MarkerYears(years, n) == m + [years[n - 1]];
      } else {
        MarkerRepeat(years, m, n);
        assert MarkerYears(years, n) == m;
      }
    }
  }

  /** An entry of the same year as the one before adds no marker, and its year already has one. */
  lemma MarkerRepeat(years: seq<nat>, m: seq<nat>, n: int)
    requires 1 < n <= |years| && years[n - 2] == years[n - 1] && OnePerYear(years, n - 1, m)
    ensures OnePerYear(years, n, m)
  {
    forall x | x in m ensures exists i :: 0 <= i < n && years[i] == x {
      var i :| 0 <= i < n - 1 && years[i] == x;
    }
    assert years[n - 1] == years[n - 2];
  }

  /** An entry of a later year than the one before adds a marker for it. */
  lemma MarkerAppend(years: seq<nat>, m: seq<nat>, n: int)
    requires 0 < n <= |years| && Ascending(years) && OnePerYear(years, n - 1, m)
    requires n > 1 ==> years[n - 2] != years[n - 1]
    ensures OnePerYear(years, n, m + [years[n - 1]])
  {
    var y := years[n - 1];
    var q := m + [y];
    forall x | x in q ensures exists i :: 0 <= i < n && years[i] == x {
      if x == y {
        assert years[n - 1] == x;
      } else {
        assert x in m;
        var i :| 0 <= i < n - 1 && years[i] == x;
      }
    }
    forall a, b | 0 <= a < b < |q| ensures q[a] < q[b] {
      if b == |q| - 1 && n > 1 {
        assert q[a] <= m[|m| - 1] < y;
      }
    }
  }

  /**
   * Years that do not keep their order get a marker at every change: 2020,
   * 2019, 2020 print three markers, two of them for 2020.
   */
  lemma MarkersUnordered()
    ensures MarkerYears([2020, 2019, 2020], 3) == [2020, 2019, 2020]
  {
    var ys := [2020, 2019, 2020];
    assert MarkerYears(ys, 1) == [2020];
    assert MarkerYears(ys, 2) == [2020, 2019];
  }
}
