/**
 * `fetch_entries`: turns transaction rows, in the order the query returns
 * them, into one two-posting Entry per row. A split parent row is remembered
 * for the postings that follow it, and the destination account name of the
 * last row that set one carries over to a row that has no category.
 */
module Extractor {
  import opened Wrappers
  import opened Text
  import opened Assoc
  import opened Money
  import opened Clock
  import opened Accounts
  import opened Entries

  /** A transactions row; `when` is the local time of `date`, a POSIX timestamp. */
  datatype Row = Row(
    id: int, date: int, when: Timestamp, amount: int, accountId: int,
    catId: Option<int>, transferAccount: Option<int>, transferPeer: Option<int>,
    payeeId: Option<int>, comment: Option<string>, parentId: Option<int>)

  /** What survives from one row to the next: the split parent and the last destination name. */
  datatype State = State(parent: Option<Row>, dst: Option<string>)

  datatype Outcome = Skip(next: State) | Emit(entry: Entry, next: State) | Fail(error: Error)

  const Start := State(None, None)

  /** Whether a split posting fits its parent, as the five asserts demand. */
  predicate SplitFits(row: Row, parent: Option<Row>)
  {
    && row.payeeId.None?
    && parent.Some?
    && row.parentId == Some(parent.value.id)
    && parent.value.date == row.date
    && !(Truthy(row.comment) && Truthy(parent.value.comment))
  }

  /** The second half of a row: split checks, payee lookup, and the entry itself. */
  function Finish(payees: Assoc<int, string>, st: State, row: Row, src: string, cur: string): (o: Outcome)
  {
    var split := row.parentId.Some?;
    if split && !SplitFits(row, st.parent) then Fail(AssertionError)
    else
      var comment := if split then Or(row.comment, st.parent.value.comment) else row.comment;
      var payeeId := if split then st.parent.value.payeeId else row.payeeId;
      var next := if split then st else st.(parent := None);
      var payee := if payeeId.None? then Ok(None) else match Get(payees, payeeId.value)
        case None => Err(KeyError(payeeId.value))
        case Some(name) => Ok(Some(name));
      if payee.Err? then Fail(payee.error)
      else if st.dst.None? then Fail(UnboundLocalError)
      else Emit(Entry(row.when, payee.value, comment, Postings(src, st.dst.value, row.amount, cur, payee.value, comment)), next)
  }

  /** One iteration of the loop of `fetch_entries`. */
  function Step(t: Tables, payees: Assoc<int, string>, st: State, row: Row): (o: Outcome)
  {
    match Asset(t, row.accountId)
    case Err(e) => Fail(e)
    case Ok(src) =>
      var cur := AssetCurrency(t, row.accountId).value;
      if row.transferAccount.None? then
        if row.transferPeer.Some? then Fail(AssertionError)
        else if row.catId.None? then Finish(payees, st, row, src, cur)
        else if row.catId == Some(0) then Skip(st.(parent := Some(row)))
        else
          match CategoryName(t, row.catId)
          case Err(e) => Fail(e)
          case Ok(dst) => Finish(payees, st.(dst := Some(dst)), row, src, cur)
      else if !(row.catId == Some(0) || row.catId.None?) then Fail(AssertionError)
      else
        match Asset(t, row.transferAccount.value)
        case Err(e) => Fail(e)
        case Ok(dst) => Finish(payees, st.(dst := Some(dst)), row, src, cur)
  }

  /** The entries yielded, the state after the last row handled, and the exception that stopped the generator, if any. */
  datatype Progress = Progress(entries: seq<Entry>, state: State, error: Option<Error>)

  /** The generator run over the rows: it stops at the first exception, keeping what it yielded before. */
  function Extract(t: Tables, payees: Assoc<int, string>, rows: seq<Row>): (p: Progress)
    ensures |p.entries| <= |rows|
  {
    if rows == [] then Progress([], Start, None)
    else
      var p := Extract(t, payees, rows[..|rows| - 1]);
      if p.error.Some? then p
      else
        match Step(t, payees, p.state, rows[|rows| - 1])
        case Fail(e) => p.(error := Some(e))
        case Skip(next) => p.(state := next)
        case Emit(entry, next) => Progress(p.entries + [entry], next, None)
  }

  /**
   * The body of the loop of `fetch_entries` for one row, with `parent` and
   * `dst` as they stand before it.
   */
  method HandleRow(t: Tables, payees: Assoc<int, string>, parent: Option<Row>, dst: Option<string>, row: Row) returns (o: Outcome)
    ensures o == Step(t, payees, State(parent, dst), row)
  {
    var src := Asset(t, row.accountId);
    if src.Err? { return Fail(src.error); }
    var cur := AssetCurrency(t, row.accountId).value;
    var dst := dst;
    if row.transferAccount.None? {
      if row.transferPeer.Some? { return Fail(AssertionError); }
      if row.catId.None? {
        // only a warning: dst keeps the name an earlier row gave it
      } else if row.catId == Some(0) {
        return Skip(State(Some(row), dst));
      } else {
        var d := CategoryName(t, row.catId);
        if d.Err? { return Fail(d.error); }
        dst := Some(d.value);
      }
    } else {
      if !(row.catId == Some(0) || row.catId.None?) { return Fail(AssertionError); }
      var d := Asset(t, row.transferAccount.value);
      if d.Err? { return Fail(d.error); }
      dst := Some(d.value);
    }
    var parent := parent;
    var comment := row.comment;
    var payeeId := row.payeeId;
    if row.parentId.Some? {
      if row.payeeId.Some? { return Fail(AssertionError); }
      if parent.None? { return Fail(AssertionError); }
      if parent.value.id != row.parentId.value { return Fail(AssertionError); }
      if parent.value.date != row.date { return Fail(AssertionError); }
      if Truthy(comment) && Truthy(parent.value.comment) { return Fail(AssertionError); }
      comment := Or(comment, parent.value.comment);
      payeeId := parent.value.payeeId;
    } else {
      parent := None;
    }
    var payee: Option<string> := None;
    if payeeId.Some? {
      var name := Get(payees, payeeId.value);
      if name.None? { return Fail(KeyError(payeeId.value)); }
      payee := name;
    }
    if dst.None? { return Fail(UnboundLocalError); }
    return Emit(Entry(row.when, payee, comment, Postings(src.value, dst.value, row.amount, cur, payee, comment)), State(parent, dst));
  }

  /**
   * `fetch_entries`: the loop over the rows, with `parent` and `dst` carried
   * from one iteration to the next. Returns the entries yielded and the
   * exception that ended the iteration early, if any.
   */
  method FetchEntries(t: Tables, payees: Assoc<int, string>, rows: seq<Row>) returns (entries: seq<Entry>, error: Option<Error>)
    ensures entries == Extract(t, payees, rows).entries
    ensures error == Extract(t, payees, rows).error
  {
    var parent: Option<Row> := None;
    var dst: Option<string> := None;
    entries := [];
    var i := 0;
    while i < |rows|
      invariant 0 <= i <= |rows|
      invariant Extract(t, payees, rows[..i]) == Progress(entries, State(parent, dst), None)
    {
      assert rows[..i + 1][..i] == rows[..i];
      var o := HandleRow(t, payees, parent, dst, rows[i]);
      match o {
        case Fail(e) =>
          ErrorStops(t, payees, rows, i + 1);
          return entries, Some(e);
        case Skip(next) =>
          parent, dst := next.parent, next.dst;
        case Emit(entry, next) =>
          entries := entries + [entry];
          parent, dst := next.parent, next.dst;
      }
      i := i + 1;
    }
    assert rows[..i] == rows;
    return entries, None;
  }

  /** Once the generator has raised, later rows change nothing. */
  lemma {:induction false} ErrorStops(t: Tables, payees: Assoc<int, string>, rows: seq<Row>, n: int)
    requires 0 <= n <= |rows|
    requires Extract(t, payees, rows[..n]).error.Some?
    ensures Extract(t, payees, rows) == Extract(t, payees, rows[..n])
    decreases |rows| - n
  {
    if n < |rows| {
      assert rows[..n + 1][..n] == rows[..n];
      ErrorStops(t, payees, rows, n + 1);
    } else {
      assert rows[..n] == rows;
    }
  }

  /** The account names a row books on, when both can be looked up and the row is not a split parent. */
  predicate Routed(t: Tables, st: State, row: Row, src: string, dst: Option<string>)
  {
    && Asset(t, row.accountId) == Ok(src)
    && if row.transferAccount.None? then
         && row.transferPeer.None?
         && (row.catId.None? ==> dst == st.dst)
         && (row.catId.Some? ==> row.catId != Some(0) && dst.Some? && CategoryName(t, row.catId) == Ok(dst.value))
       else
         && (row.catId == Some(0) || row.catId.None?)
         && dst.Some? && Asset(t, row.transferAccount.value) == Ok(dst.value)
  }

  /** A row without transfer and with category 0 is a split parent: it is remembered and yields nothing. */
  lemma ParentRow(t: Tables, payees: Assoc<int, string>, st: State, row: Row)
    requires Asset(t, row.accountId).Ok? && row.transferAccount.None? && row.transferPeer.None?
    ensures Step(t, payees, st, row).Skip? <==> row.catId == Some(0)
    ensures row.catId == Some(0) ==> Step(t, payees, st, row) == Skip(State(Some(row), st.dst))
  {
  }

  /** Only a split parent is skipped. */
  lemma OnlyParentSkips(t: Tables, payees: Assoc<int, string>, st: State, row: Row)
    requires Step(t, payees, st, row).Skip?
    ensures row.transferAccount.None? && row.transferPeer.None? && row.catId == Some(0)
    ensures Step(t, payees, st, row).next == State(Some(row), st.dst)
  {
  }

  /** A transfer row must have category 0 or none; a row without transfer must have no transfer peer. */
  lemma TransferAsserts(t: Tables, payees: Assoc<int, string>, st: State, row: Row)
    requires Asset(t, row.accountId).Ok?
    ensures row.transferAccount.Some? && !(row.catId == Some(0) || row.catId.None?) ==> Step(t, payees, st, row) == Fail(AssertionError)
    ensures row.transferAccount.None? && row.transferPeer.Some? ==> Step(t, payees, st, row) == Fail(AssertionError)
  {
  }

  /**
   * A split posting must have no payee of its own and follow its parent, on the
   * same date, with at most one of the two comments; it then takes the parent's
   * payee, and the parent's comment when it has none.
   */
  lemma SplitPosting(t: Tables, payees: Assoc<int, string>, st: State, row: Row, src: string, dst: Option<string>)
    requires Routed(t, st, row, src, dst) && row.parentId.Some?
    ensures !SplitFits(row, st.parent) ==> Step(t, payees, st, row) == Fail(AssertionError)
    ensures SplitFits(row, st.parent) ==> match Step(t, payees, st, row)
      case Emit(e, next) =>
        && e.comment == Or(row.comment, st.parent.value.comment)
        && e.payee == (if st.parent.value.payeeId.None? then None else Get(payees, st.parent.value.payeeId.value))
        && next.parent == st.parent
      case Fail(err) =>
        || (st.parent.value.payeeId.Some? && Get(payees, st.parent.value.payeeId.value).None? && err == KeyError(st.parent.value.payeeId.value))
        || (dst.None? && err == UnboundLocalError)
      case Skip(_) => false
  {
  }

  /** A row that is not a split posting forgets the split parent and keeps its own payee and comment. */
  lemma NonSplitResets(t: Tables, payees: Assoc<int, string>, st: State, row: Row)
    requires row.parentId.None?
    requires Step(t, payees, st, row).Emit?
    ensures Step(t, payees, st, row).next.parent.None?
    ensures Step(t, payees, st, row).entry.comment == row.comment
    ensures Step(t, payees, st, row).entry.payee == (if row.payeeId.None? then None else Get(payees, row.payeeId.value))
  {
  }

  /**
   * A routed row outside a split takes the payee of its own `payee_id`: none
   * without one, and KeyError for an id the payees do not hold; only an unset
   * destination can fail it otherwise.
   */
  lemma NonSplitPayee(t: Tables, payees: Assoc<int, string>, st: State, row: Row, src: string, dst: Option<string>)
    requires Routed(t, st, row, src, dst) && row.parentId.None?
    ensures row.payeeId.Some? && Get(payees, row.payeeId.value).None? ==> Step(t, payees, st, row) == Fail(KeyError(row.payeeId.value))
    ensures match Step(t, payees, st, row)
      case Emit(e, next) =>
        && e.payee == (if row.payeeId.None? then None else Get(payees, row.payeeId.value))
        && e.comment == row.comment
        && next.parent.None?
      case Fail(err) =>
        || (row.payeeId.Some? && Get(payees, row.payeeId.value).None? && err == KeyError(row.payeeId.value))
        || (dst.None? && err == UnboundLocalError)
      case Skip(_) => false
  {
  }

  /**
   * The entry of a row books +amount on the row's account, with neither payee
   * nor comment, and -amount with the payee and comment on the destination;
   * between two different accounts it balances.
   */
  lemma EntryShape(t: Tables, payees: Assoc<int, string>, st: State, row: Row)
    requires Step(t, payees, st, row).Emit?
    ensures var o := Step(t, payees, st, row); var e := o.entry;
      && o.next.dst.Some?
      && Routed(t, st, row, Asset(t, row.accountId).value, o.next.dst)
      && e.when == row.when
      && e.flow == Postings(Asset(t, row.accountId).value, o.next.dst.value, row.amount,
           AssetCurrency(t, row.accountId).value, e.payee, e.comment)
      && (Asset(t, row.accountId).value != o.next.dst.value ==> Balanced(e.flow))
  {
    var o := Step(t, payees, st, row);
    var e := o.entry;
    if Asset(t, row.accountId).value != o.next.dst.value {
      PostingsBalanced(Asset(t, row.accountId).value, o.next.dst.value, row.amount,
        AssetCurrency(t, row.accountId).value, e.payee, e.comment);
    }
  }

  /**
   * A row with neither transfer nor category books on whatever destination the
   * last row that named one left; before any row has named one it fails.
   */
  lemma StaleDestination(t: Tables, payees: Assoc<int, string>, st: State, row: Row)
    requires Asset(t, row.accountId).Ok?
    requires row.transferAccount.None? && row.transferPeer.None? && row.catId.None?
    ensures Step(t, payees, st, row).Emit? ==> Step(t, payees, st, row).next.dst == st.dst
    ensures st.dst.None? ==> Step(t, payees, st, row).Fail?
  {
  }

  /** Every entry the generator yields has one posting per account named, and balances when it names two. */
  lemma {:induction false} ExtractShape(t: Tables, payees: Assoc<int, string>, rows: seq<Row>)
    ensures forall e :: e in Extract(t, payees, rows).entries ==>
      (|e.flow| == 2 && Balanced(e.flow)) || |e.flow| == 1
  {
    if rows != [] {
      var front := rows[..|rows| - 1];
      ExtractShape(t, payees, front);
      var p := Extract(t, payees, front);
      if p.error.None? {
        var row := rows[|rows| - 1];
        var o := Step(t, payees, p.state, row);
        if o.Emit? {
          EntryShape(t, payees, p.state, row);
        }
      }
    }
  }

  /** The rows come in time order, as the query's `ORDER BY date` returns them. */
  predicate RowsInOrder(rows: seq<Row>)
  {
    forall i, j :: 0 <= i < j < |rows| ==> !Before(rows[j].when, rows[i].when)
  }

  lemma NotAfterStep(es: seq<Entry>, a: Timestamp, b: Timestamp)
    requires !Before(b, a) && forall e :: e in es ==> !Before(a, e.when)
    ensures forall e :: e in es ==> !Before(b, e.when)
  {
    forall e | e in es ensures !Before(b, e.when) {
      BeforeStrictTotal(b, a, e.when);
      BeforeStrictTotal(a, e.when, b);
    }
  }

  lemma InOrderAppend(es: seq<Entry>, e: Entry)
    requires InOrder(es) && forall x :: x in es ==> !Before(e.when, x.when)
    ensures InOrder(es + [e])
  {
    var s := es + [e];
    forall i, j | 0 <= i < j < |s| ensures !Before(s[j].when, s[i].when) {
      if j < |es| {
        assert s[i] == es[i] && s[j] == es[j];
      } else {
        assert s[i] in es;
      }
    }
  }

  /** Rows in time order yield entries in time order, none later than the last row. */
  lemma {:induction false} ExtractInOrder(t: Tables, payees: Assoc<int, string>, rows: seq<Row>)
    requires RowsInOrder(rows)
    ensures InOrder(Extract(t, payees, rows).entries)
    ensures rows != [] ==> forall e :: e in Extract(t, payees, rows).entries ==> !Before(rows[|rows| - 1].when, e.when)
  {
    if rows != [] {
      var front, last := rows[..|rows| - 1], rows[|rows| - 1];
      ExtractInOrder(t, payees, front);
      var p := Extract(t, payees, front);
      if front != [] {
        assert front[|front| - 1] == rows[|rows| - 2];
        NotAfterStep(p.entries, front[|front| - 1].when, last.when);
      }
      if p.error.None? {
        var o := Step(t, payees, p.state, last);
        if o.Emit? {
          EntryShape(t, payees, p.state, last);
          InOrderAppend(p.entries, o.entry);
          BeforeStrictTotal(last.when, last.when, last.when);
        }
      }
    }
  }
}
