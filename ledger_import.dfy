/**
 * The older `ledger-import` script: one two-posting entry per transaction row,
 * each amount already formatted as text, a split-transaction row skipped,
 * and a "Y<year>" marker whenever the year differs from the one of the entry
 * printed before.
 */
module LedgerImport {
  import opened Wrappers
  import opened Text
  import opened Assoc
  import opened Money
  import opened Clock
  import opened Accounts
  import opened Extractor
  import opened Render
  import opened Markers

  /** The label the category of split parents carries. */
  const SplitLabel := "__SPLIT_TRANSACTION__"

  /** `Accounts.asset` of this script: "Assets:" and the account's label, whatever its type. */
  function ImportAsset(t: Tables, id: int): (r: Result<string>)
    ensures Get(t.assets, id).None? ==> r == Err(KeyError(id))
    ensures Get(t.assets, id).Some? ==> r == Ok("Assets:" + Get(t.assets, id).value.name)
  {
    match Get(t.assets, id)
    case None => Err(KeyError(id))
    case Some(a) => Ok("Assets:" + a.name)
  }

  /**
   * The amount of one posting: `fmt_currency(coins, name)` is its text. The
   * entry keeps the number and the currency; the text is made when the entry
   * is printed, which is the only use the script makes of it.
   */
  datatype Amount = Amount(coins: int, name: string)

  function AmountText(a: Amount): string
  {
    Format(a.coins, a.name)
  }

  /** The entry dictionary of one row, its flow one amount per account. */
  datatype ImportEntry = ImportEntry(when: Timestamp, comment: Option<string>, payee: Option<string>, flow: Assoc<string, Amount>)

  datatype ImportOutcome = Skipped | Emitted(entry: ImportEntry) | Failed(error: Error)

  /** `payees[payee_id]`, or None when the row has no payee. */
  function PayeeOf(payees: Assoc<int, string>, id: Option<int>): (r: Result<Option<string>>)
    ensures id.None? ==> r == Ok(None)
    ensures id.Some? && Get(payees, id.value).None? ==> r == Err(KeyError(id.value))
    ensures id.Some? && Get(payees, id.value).Some? ==> r == Ok(Get(payees, id.value))
  {
    if id.None? then Ok(None)
    else match Get(payees, id.value)
      case None => Err(KeyError(id.value))
      case Some(name) => Ok(Some(name))
  }

  /** The destination account of a row: a category when it is no transfer, the peer account otherwise. */
  function Destination(t: Tables, row: Row): Result<string>
  {
    if row.transferAccount.None? then
      if row.transferPeer.Some? then Err(AssertionError) else CategoryName(t, row.catId)
    else ImportAsset(t, row.transferAccount.value)
  }

  /**
   * The entry dictionary of a row once its accounts and currency are known:
   * the amount goes to the row's account and its opposite to the destination.
   * Only the payee lookup can fail.
   */
  function MakeEntry(payees: Assoc<int, string>, row: Row, src: string, dst: string, cur: string): ImportOutcome
  {
    match PayeeOf(payees, row.payeeId)
    case Err(e) => Failed(e)
    case Ok(payee) => Emitted(ImportEntry(row.when, row.comment, payee, Put(Put([], src, Amount(row.amount, cur)), dst, Amount(-row.amount, cur))))
  }

  /** The body of the loop over the rows, up to the entry dictionary. */
  function ImportStep(t: Tables, payees: Assoc<int, string>, row: Row): ImportOutcome
  {
    match ImportAsset(t, row.accountId)
    case Err(e) => Failed(e)
    case Ok(src) =>
      match AssetCurrency(t, row.accountId)
      case Err(e) => Failed(e)
      case Ok(cur) =>
        match Destination(t, row)
        case Err(e) => Failed(e)
        case Ok(dst) => if dst == SplitLabel then Skipped else MakeEntry(payees, row, src, dst, cur)
  }

  /**
   * An entry built from a row has the row's time and note, and posts the
   * amount to the row's account and its opposite to the destination, both in
   * the account's currency; when both are the same account the second
   * assignment replaces the first. The split label is never an account of it.
   */
  lemma ImportEntryFlow(t: Tables, payees: Assoc<int, string>, row: Row)
    requires ImportStep(t, payees, row).Emitted?
    ensures ImportAsset(t, row.accountId).Ok? && AssetCurrency(t, row.accountId).Ok? && Destination(t, row).Ok?
    ensures var e := ImportStep(t, payees, row).entry;
      var src, cur, dst := ImportAsset(t, row.accountId).value, AssetCurrency(t, row.accountId).value, Destination(t, row).value;
      && e.when == row.when && e.comment == row.comment
      && dst != SplitLabel && src != SplitLabel
      && (src != dst ==> e.flow == [(src, Amount(row.amount, cur)), (dst, Amount(-row.amount, cur))])
      && (src == dst ==> e.flow == [(src, Amount(-row.amount, cur))])
  {
    var src, cur, dst := ImportAsset(t, row.accountId).value, AssetCurrency(t, row.accountId).value, Destination(t, row).value;
    assert src[0] == 'A' && SplitLabel[0] == '_';
    assert ImportStep(t, payees, row) == MakeEntry(payees, row, src, dst, cur);
    MakeEntryFlow(payees, row, src, dst, cur);
  }

  lemma MakeEntryFlow(payees: Assoc<int, string>, row: Row, src: string, dst: string, cur: string)
    requires MakeEntry(payees, row, src, dst, cur).Emitted?
    ensures var e := MakeEntry(payees, row, src, dst, cur).entry;
      && e.when == row.when && e.comment == row.comment
      && e.flow == if src != dst then [(src, Amount(row.amount, cur)), (dst, Amount(-row.amount, cur))] else [(src, Amount(-row.amount, cur))]
  {
    var x, y := Amount(row.amount, cur), Amount(-row.amount, cur);
    PutPair(src, dst, x, y);
  }

  /** The dict literal `{a: x, b: y}`: two pairs, or one holding the later value when the keys are equal. */
  lemma PutPair<K, V>(a: K, b: K, x: V, y: V)
    ensures Put(Put([], a, x), b, y) == if a != b then [(a, x), (b, y)] else [(a, y)]
  {
    assert Put([], a, x) == [(a, x)];
  }

  /**
   * The two postings of a transaction between two accounts cancel out, and
   * their printed texts read back as the amount and its opposite.
   */
  lemma ImportEntryBalances(t: Tables, payees: Assoc<int, string>, row: Row)
    requires ImportStep(t, payees, row).Emitted?
    requires ImportAsset(t, row.accountId) != Destination(t, row)
    ensures var e := ImportStep(t, payees, row).entry; var cur := AssetCurrency(t, row.accountId).value;
      && |e.flow| == 2
      && e.flow[0].1.coins + e.flow[1].1.coins == 0
      && e.flow[0].1.name == e.flow[1].1.name == cur
      && Parse(AmountText(e.flow[0].1), cur) == Some(row.amount)
      && Parse(AmountText(e.flow[1].1), cur) == Some(-row.amount)
  {
    ImportEntryFlow(t, payees, row);
    var cur := AssetCurrency(t, row.accountId).value;
    ParseFormat(row.amount, cur);
    ParseFormat(-row.amount, cur);
  }

  /** The script raises exactly when a lookup fails or a transfer has a peer but no account. */
  lemma ImportStepFails(t: Tables, payees: Assoc<int, string>, row: Row)
    ensures ImportStep(t, payees, row).Failed? <==>
      || Get(t.assets, row.accountId).None?
      || Destination(t, row).Err?
      || (Destination(t, row).value != SplitLabel && row.payeeId.Some? && Get(payees, row.payeeId.value).None?)
    ensures Get(t.assets, row.accountId).None? ==> ImportStep(t, payees, row) == Failed(KeyError(row.accountId))
    ensures Get(t.assets, row.accountId).Some? && row.transferAccount.None? && row.transferPeer.Some? ==>
      ImportStep(t, payees, row) == Failed(AssertionError)
  {
  }

  /** The destination account, or the exception raised while finding it. */
  method DestinationOf(t: Tables, row: Row) returns (dst: Result<string>)
    ensures dst == Destination(t, row)
  {
    if row.transferAccount.None? {
      if row.transferPeer.Some? { return Err(AssertionError); }
      dst := CategoryName(t, row.catId);
    } else {
      dst := ImportAsset(t, row.transferAccount.value);
    }
  }

  /** The loop body for one row, with the early exits of the source. */
  method ImportRow(t: Tables, payees: Assoc<int, string>, row: Row) returns (o: ImportOutcome)
    ensures o == ImportStep(t, payees, row)
  {
    var src := ImportAsset(t, row.accountId);
    if src.Err? { return Failed(src.error); }
    var cur := AssetCurrency(t, row.accountId);
    if cur.Err? { return Failed(cur.error); }
    var dst := DestinationOf(t, row);
    if dst.Err? { return Failed(dst.error); }
    if dst.value == SplitLabel { return Skipped; }
    o := MakeEntry(payees, row, src.value, dst.value, cur.value);
  }

  /** One posting line per account of the entry, in the entry's order. */
  /** The posting line of one account: the account, then its amount's text right-aligned. */
  function AmountLine(a: (string, Amount)): string
  {
    Posting(a.0, AmountText(a.1))
  }

  function AmountLines(flow: Assoc<string, Amount>): (ls: seq<string>)
    ensures |ls| == |flow|
    ensures forall i :: 0 <= i < |flow| ==> ls[i] == AmountLine(flow[i])
  {
    if flow == [] then []
    else
      AmountLines(flow[..|flow| - 1]) + [AmountLine(flow[|flow| - 1])]
  }

  function EntryLines(e: ImportEntry, year: Option<nat>): seq<string>
  {
    [Header(e.when, e.payee, year)] + NoteLines(e.comment) + AmountLines(e.flow)
  }

  /** What `fmt_entry(entry, year)` returns. */
  function FmtEntry(e: ImportEntry, year: Option<nat>): string
  {
    Join("\n", EntryLines(e, year)) + "\n"
  }

  /** No line break in the entry's payee, its comment, its accounts or its currency codes. */
  predicate EntryNoBreaks(e: ImportEntry)
  {
    && (e.payee.Some? ==> '\n' !in e.payee.value)
    && (e.comment.Some? ==> '\n' !in e.comment.value)
    && forall k :: 0 <= k < |e.flow| ==> '\n' !in e.flow[k].0 && '\n' !in e.flow[k].1.name
  }

  lemma AmountLinesNoBreaks(flow: Assoc<string, Amount>)
    requires forall k :: 0 <= k < |flow| ==> '\n' !in flow[k].0 && '\n' !in flow[k].1.name
    ensures LinesNoBreaks(AmountLines(flow))
  {
    forall k | 0 <= k < |flow| ensures '\n' !in AmountLines(flow)[k] {
      FormatNoBreak(flow[k].1.coins, flow[k].1.name);
      PostingNoBreak(flow[k].0, AmountText(flow[k].1));
    }
  }

  /**
   * Split at its line breaks, the text of `fmt_entry` gives back the header,
   * the note line when there is a comment, one posting line per account in
   * the entry's order, and the empty piece after the final break.
   */
  lemma FmtEntryLines(e: ImportEntry, year: Option<nat>)
    requires WellFormed(e.when) && EntryNoBreaks(e)
    ensures SplitLines(FmtEntry(e, year)) == [Header(e.when, e.payee, year)] + NoteLines(e.comment) + AmountLines(e.flow) + [""]
  {
    var ls := EntryLines(e, year);
    assert LinesNoBreaks(ls) by {
      var h := [Header(e.when, e.payee, year)];
      HeaderNoBreak(e.when, e.payee, year);
      NoteLinesNoBreaks(e.comment);
      AmountLinesNoBreaks(e.flow);
      LinesNoBreaksAppend(h, NoteLines(e.comment));
      LinesNoBreaksAppend(h + NoteLines(e.comment), AmountLines(e.flow));
    }
    SplitJoin(ls);
    SplitBreak(Join("\n", ls));
  }

  lemma AmountLinesStep(head: seq<string>, flow: Assoc<string, Amount>, i: int)
    requires 0 <= i < |flow|
    ensures head + AmountLines(flow[..i + 1]) == (head + AmountLines(flow[..i])) + [AmountLine(flow[i])]
  {
    assert flow[..i + 1][..i] == flow[..i];
  }

  /** `fmt_entry`: the header, the note, then one posting line per account. */
  method FmtEntryText(e: ImportEntry, year: Option<nat>) returns (s: string)
    ensures s == FmtEntry(e, year)
  {
    var block := HeadLines(e, year);
    block := AddPostings(block, e.flow);
    s := Join("\n", block) + "\n";
  }

  /** The first lines of `fmt_entry`'s block: the header, then the note when there is one. */
  method HeadLines(e: ImportEntry, year: Option<nat>) returns (block: seq<string>)
    ensures block == [Header(e.when, e.payee, year)] + NoteLines(e.comment)
  {
    var header := HeaderText(e.when, e.payee, year);
    block := [header];
    if Truthy(e.comment) {
      block := block + ["    ; note: " + e.comment.value];
    }
  }

  /** The loop of `fmt_entry` over the flow: one line per account, in the entry's order. */
  method AddPostings(head: seq<string>, flow: Assoc<string, Amount>) returns (block: seq<string>)
    ensures block == head + AmountLines(flow)
  {
    block := head;
    for i := 0 to |flow|
      invariant block == head + AmountLines(flow[..i])
    {
      var (acc, delta) := flow[i];
      var text := FormatText(delta.coins, delta.name);
      AmountLinesStep(head, flow, i);
      block := block + ["    " + PadRight(acc, 26) + "  " + PadLeft(text, 16)];
    }
    assert flow[..|flow|] == flow;
  }

  /** The entries printed and the exception that stops the script, if any. */
  datatype Scan = Scan(entries: seq<ImportEntry>, error: Option<Error>)

  /** The loop over the rows: it stops at the first exception. */
  function ImportScan(t: Tables, payees: Assoc<int, string>, rows: seq<Row>): (s: Scan)
    ensures |s.entries| <= |rows|
  {
    if rows == [] then Scan([], None)
    else
      var s := ImportScan(t, payees, rows[..|rows| - 1]);
      if s.error.Some? then s
      else
        match ImportStep(t, payees, rows[|rows| - 1])
        case Skipped => s
        case Failed(e) => s.(error := Some(e))
        case Emitted(e) => Scan(s.entries + [e], None)
  }

  /** The year of the entry printed last, which the script keeps in `year`. */
  function PrevYear(es: seq<ImportEntry>): Option<nat>
  {
    if es == [] then None else Some(es[|es| - 1].when.year)
  }

  /** What is printed for an entry after one of year `prev`: a marker when the year changes, then the entry under its own year. */
  function ImportPiece(prev: Option<nat>, e: ImportEntry): string
  {
    var y := e.when.year;
    (if prev != Some(y) then YearMarker(y) + "\n" else "") + FmtEntry(e, Some(y)) + "\n"
  }

  /** The output for the entries printed, in order. */
  function ImportPrinted(es: seq<ImportEntry>): string
  {
    if es == [] then "" else ImportPrinted(es[..|es| - 1]) + ImportPiece(PrevYear(es[..|es| - 1]), es[|es| - 1])
  }

  lemma PrintedStep(es: seq<ImportEntry>, e: ImportEntry)
    ensures ImportPrinted(es + [e]) == ImportPrinted(es) + ImportPiece(PrevYear(es), e)
  {
    assert (es + [e])[..|es|] == es;
  }

  /** The end of the loop body: a marker when the entry's year differs from the last one printed, then the entry. */
  method PrintEntry(entry: ImportEntry, year: Option<nat>) returns (text: string, year': Option<nat>)
    ensures text == ImportPiece(year, entry) && year' == Some(entry.when.year)
  {
    var when := entry.when;
    year' := year;
    text := "";
    if year' != Some(when.year) {
      text := YearMarker(when.year) + "\n";
      year' := Some(when.year);
    }
    var block := FmtEntryText(entry, year');
    text := text + block + "\n";
  }


  /** The entries printed from a first part of the rows begin the entries printed from all of them. */
  lemma {:induction false} ScanPrefix(t: Tables, payees: Assoc<int, string>, rows: seq<Row>, n: int)
    requires 0 <= n <= |rows|
    ensures ImportScan(t, payees, rows[..n]).entries <= ImportScan(t, payees, rows).entries
  {
    if n == |rows| {
      assert rows[..n] == rows;
    } else {
      var front := rows[..|rows| - 1];
      assert front[..n] == rows[..n];
      ScanPrefix(t, payees, front, n);
    }
  }

  /** Once the script has raised, later rows change nothing. */
  lemma {:induction false} ImportErrorStops(t: Tables, payees: Assoc<int, string>, rows: seq<Row>, n: int)
    requires 0 <= n <= |rows|
    requires ImportScan(t, payees, rows[..n]).error.Some?
    ensures ImportScan(t, payees, rows) == ImportScan(t, payees, rows[..n])
    decreases |rows| - n
  {
    if n < |rows| {
      assert rows[..n + 1][..n] == rows[..n];
      ImportErrorStops(t, payees, rows, n + 1);
    } else {
      assert rows[..n] == rows;
    }
  }

  lemma ScanStep(t: Tables, payees: Assoc<int, string>, rows: seq<Row>, k: int)
    requires 0 <= k < |rows| && ImportScan(t, payees, rows[..k]).error.None?
    ensures var s := ImportScan(t, payees, rows[..k]);
      ImportScan(t, payees, rows[..k + 1]) == match ImportStep(t, payees, rows[k])
        case Skipped => s
        case Failed(e) => s.(error := Some(e))
        case Emitted(e) => Scan(s.entries + [e], None)
  {
    assert rows[..k + 1][..k] == rows[..k];
  }

  lemma FailStep(t: Tables, payees: Assoc<int, string>, rows: seq<Row>, k: int, es: seq<ImportEntry>, e: Error)
    requires 0 <= k < |rows| && ImportScan(t, payees, rows[..k]) == Scan(es, None)
    requires ImportStep(t, payees, rows[k]) == Failed(e)
    ensures ImportScan(t, payees, rows) == Scan(es, Some(e))
  {
    ScanStep(t, payees, rows, k);
    ImportErrorStops(t, payees, rows, k + 1);
  }

  /** The loop of the script over the rows the query returns. */
  method ImportMain(t: Tables, payees: Assoc<int, string>, rows: seq<Row>) returns (out: string, error: Option<Error>)
    ensures error == ImportScan(t, payees, rows).error
    ensures out == ImportPrinted(ImportScan(t, payees, rows).entries)
  {
    var year: Option<nat> := None;
    out := "";
    error := None;
    ghost var es: seq<ImportEntry> := [];
    for k := 0 to |rows|
      invariant ImportScan(t, payees, rows[..k]) == Scan(es, None)
      invariant out == ImportPrinted(es) && year == PrevYear(es)
    {
      ScanStep(t, payees, rows, k);
      var o := ImportRow(t, payees, rows[k]);
      match o {
        case Failed(e) =>
          FailStep(t, payees, rows, k, es, e);
          return out, Some(e);
        case Skipped =>
        case Emitted(entry) =>
          PrintedStep(es, entry);
          var text;
          text, year := PrintEntry(entry, year);
          out := out + text;
          es := es + [entry];
      }
    }
    assert rows[..|rows|] == rows;
  }

  /** The year of an entry, under which it is printed. */
  function ImportYearOf(e: ImportEntry): nat
  {
    e.when.year
  }

  /** The script's `year` test puts a marker exactly where the year differs from the entry before. */
  lemma MarkerIffNewYear(es: seq<ImportEntry>, i: int)
    requires 0 <= i < |es|
    ensures PrevYear(es[..i]) != Some(es[i].when.year) <==> NewYear(YearsOf(es, ImportYearOf), i)
  {
  }

  /** An entry printed for a row carries the row's time. */
  lemma EmittedWhen(t: Tables, payees: Assoc<int, string>, row: Row)
    requires ImportStep(t, payees, row).Emitted?
    ensures ImportStep(t, payees, row).entry.when == row.when
  {
  }

  lemma AscendingAppend(es: seq<ImportEntry>, e: ImportEntry)
    requires Ascending(YearsOf(es, ImportYearOf)) && forall x :: x in es ==> x.when.year <= e.when.year
    ensures Ascending(YearsOf(es + [e], ImportYearOf))
  {
    var ys := YearsOf(es + [e], ImportYearOf);
    forall i, j | 0 <= i < j < |ys| ensures ys[i] <= ys[j] {
      if j < |es| {
        assert ys[i] == YearsOf(es, ImportYearOf)[i] && ys[j] == YearsOf(es, ImportYearOf)[j];
      } else {
        assert es[i] in es;
      }
    }
  }

  /** Rows in time order give printed entries whose years never go down. */
  lemma {:induction false} ImportYearsAscending(t: Tables, payees: Assoc<int, string>, rows: seq<Row>)
    requires RowsInOrder(rows)
    ensures Ascending(YearsOf(ImportScan(t, payees, rows).entries, ImportYearOf))
    ensures rows != [] ==> forall e :: e in ImportScan(t, payees, rows).entries ==> e.when.year <= rows[|rows| - 1].when.year
  {
    if rows != [] {
      var front, last := rows[..|rows| - 1], rows[|rows| - 1];
      assert RowsInOrder(front);
      ImportYearsAscending(t, payees, front);
      var s := ImportScan(t, payees, front);
      if front != [] {
        var prev := front[|front| - 1];
        assert prev == rows[|rows| - 2];
        BeforeStrictTotal(last.when, prev.when, last.when);
        BeforeYear(prev.when, last.when);
      }
      assert forall x :: x in s.entries ==> x.when.year <= last.when.year;
      var o := ImportStep(t, payees, last);
      if s.error.None? && o.Emitted? {
        EmittedWhen(t, payees, last);
        AscendingAppend(s.entries, o.entry);
      }
    }
  }

  /**
   * Rows in time order get one marker per year: the markers rise strictly and
   * every printed entry's year has one.
   */
  lemma ImportMarkers(t: Tables, payees: Assoc<int, string>, rows: seq<Row>)
    requires RowsInOrder(rows)
    ensures var es := ImportScan(t, payees, rows).entries; var m := MarkerYears(YearsOf(es, ImportYearOf), |es|);
      && (forall a, b :: 0 <= a < b < |m| ==> m[a] < m[b])
      && (forall i :: 0 <= i < |es| ==> es[i].when.year in m)
  {
    var es := ImportScan(t, payees, rows).entries;
    ImportYearsAscending(t, payees, rows);
    OneMarkerPerYear(YearsOf(es, ImportYearOf), |es|);
  }
}
