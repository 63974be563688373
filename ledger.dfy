/**
 * `action_ledger`: the merged entries, each rendered under its own year, with
 * a "Y<year>" marker printed whenever the year differs from that of the entry
 * before. Every `print` ends its text with one more line break.
 */
module Ledger {
  import opened Wrappers
  import opened Text
  import opened Assoc
  import opened Clock
  import opened Accounts
  import opened Entries
  import opened Extractor
  import opened Merger
  import opened Render
  import opened Markers

  /** The year of an entry, under which it is printed. */
  function YearOf(e: Entry): nat
  {
    e.when.year
  }

  /** What is printed for entry i: perhaps the marker, then the block rendered under the entry's year. */
  function Piece(entries: seq<Entry>, i: int): string
    requires 0 <= i < |entries|
  {
    var y := entries[i].when.year;
    (if NewYear(YearsOf(entries, YearOf), i) then YearMarker(y) + "\n" else "") + Rendered(entries[i], Some(y)) + "\n"
  }

  /** The output for the first n entries. */
  function Printed(entries: seq<Entry>, n: int): string
    requires 0 <= n <= |entries|
  {
    if n == 0 then "" else Printed(entries, n - 1) + Piece(entries, n - 1)
  }

  /** The loop of `action_ledger` over a list of entries. */
  method PrintLedger(entries: seq<Entry>) returns (out: string)
    ensures out == Printed(entries, |entries|)
  {
    var year: Option<nat> := None;
    out := "";
    for i := 0 to |entries|
      invariant out == Printed(entries, i)
      invariant year == if i == 0 then None else Some(entries[i - 1].when.year)
    {
      var text;
      text, year := PrintEntry(entries, i, year);
      out := out + text;
    }
  }

  /** The loop body: a marker when the entry's year differs from the last one printed, then the entry. */
  method PrintEntry(entries: seq<Entry>, i: int, year: Option<nat>) returns (text: string, year': Option<nat>)
    requires 0 <= i < |entries| && year == if i == 0 then None else Some(entries[i - 1].when.year)
    ensures text == Piece(entries, i) && year' == Some(entries[i].when.year)
  {
    var when := entries[i].when;
    year' := year;
    text := "";
    if year' != Some(when.year) {
      text := YearMarker(when.year) + "\n";
      year' := Some(when.year);
    }
    var block := RenderEntry(entries[i], year');
    var years := YearsOf(entries, YearOf);
    assert years[i] == when.year;
    assert i > 0 ==> years[i - 1] == entries[i - 1].when.year;
    text := text + block + "\n";
  }

  /** Every entry is printed under its own year, so its block starts with month and day alone. */
  lemma PieceDate(entries: seq<Entry>, i: int)
    requires 0 <= i < |entries| && WellFormed(entries[i].when)
    ensures var e := entries[i]; var r := Rendered(e, Some(e.when.year));
      |r| >= 7 && r[..7] == MonthDay(e.when) + " *"
  {
    RenderedDate(entries[i], Some(entries[i].when.year));
  }

  /**
   * What `merge_splits` yields from the rows read, and the exception that
   * ends `action_ledger`: that of the first run `prepare` cannot handle, or
   * else that of reading the rows. When reading fails, the group
   * `merge_splits` was still gathering is never yielded.
   */
  function LedgerOutcome(t: Tables, payees: Assoc<int, string>, rows: seq<Row>): (y: Yielded)
    ensures |y.entries| <= |rows|
    ensures Extract(t, payees, rows).error.Some? ==> y.error.Some?
  {
    var p := Extract(t, payees, rows);
    MergeSplitsSpec(p.entries, p.error)
  }

  /** `action_ledger(conn)`: the text printed, and the exception that ends it, if any. */
  method ActionLedger(t: Tables, payees: Assoc<int, string>, rows: seq<Row>) returns (out: string, error: Option<Error>)
    ensures var y := LedgerOutcome(t, payees, rows); out == Printed(y.entries, |y.entries|) && error == y.error
  {
    var entries, upstream := FetchEntries(t, payees, rows);
    var merged;
    merged, error := MergeSplits(entries, upstream);
    out := PrintLedger(merged);
  }

  /**
   * Rows read in time order give printed entries with strictly increasing
   * times, so the years never go down and each year is marked once.
   */
  lemma LedgerMarkers(t: Tables, payees: Assoc<int, string>, rows: seq<Row>)
    requires RowsInOrder(rows)
    ensures var es := LedgerOutcome(t, payees, rows).entries; var m := MarkerYears(YearsOf(es, YearOf), |es|);
      && (forall a, b :: 0 <= a < b < |m| ==> m[a] < m[b])
      && (forall i :: 0 <= i < |es| ==> es[i].when.year in m)
  {
    var p := Extract(t, payees, rows);
    ExtractInOrder(t, payees, rows);
    MergeSplitsInOrder(p.entries, p.error);
    var es := LedgerOutcome(t, payees, rows).entries;
    var ys := YearsOf(es, YearOf);
    assert Ascending(ys) by {
      forall i, j | 0 <= i < j < |ys| ensures ys[i] <= ys[j] {
        BeforeYear(es[i].when, es[j].when);
      }
    }
    OneMarkerPerYear(ys, |es|);
  }
}
