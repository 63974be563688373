/**
 * `merge_splits` and its `prepare`: neighbouring entries with the same time are
 * folded into the first of them; a folded group then loses its payee or its
 * comment when the group disagrees about it, and each account's flows are
 * collapsed.
 */
module Merger {
  import opened Wrappers
  import opened Text
  import opened Assoc
  import opened Money
  import opened Clock
  import opened Entries
  import opened Grouping
  import opened Collapsing

  function WhenOf(e: Entry): Timestamp { e.when }

  /**
   * The accounts of more folded into flow in their order: an account already
   * present gets more's flows appended to its own, a new one goes last.
   */
  function Absorb(flow: Assoc<string, seq<Flow>>, more: Assoc<string, seq<Flow>>): Assoc<string, seq<Flow>>
  {
    if more == [] then flow
    else
      var f := Absorb(flow, more[..|more| - 1]);
      var (acc, fs) := more[|more| - 1];
      Put(f, acc, GetOr(f, acc) + fs)
  }

  /** The first entry of a run with the flows of the later ones folded in. */
  function Merged(run: seq<Entry>): (e: Entry)
    requires |run| > 0
    ensures e.when == run[0].when && e.payee == run[0].payee && e.comment == run[0].comment
  {
    if |run| == 1 then run[0]
    else
      var m := Merged(run[..|run| - 1]);
      m.(flow := Absorb(m.flow, run[|run| - 1].flow))
  }

  /** Every flow of the entry, account by account. */
  function AllFlows(flow: Assoc<string, seq<Flow>>): seq<Flow>
  {
    if flow == [] then [] else flow[0].1 + AllFlows(flow[1..])
  }

  /** The distinct non-empty payees of the flows, with the entry's own when it is non-empty. */
  function Payees(e: Entry): set<string>
  {
    (set f | f in AllFlows(e.flow) && Truthy(f.payee) :: f.payee.value)
      + (if Truthy(e.payee) then {e.payee.value} else {})
  }

  /** The distinct non-empty comments of the flows, with the entry's own when it is non-empty. */
  function Comments(e: Entry): set<string>
  {
    (set f | f in AllFlows(e.flow) && Truthy(f.comment) :: f.comment.value)
      + (if Truthy(e.comment) then {e.comment.value} else {})
  }

  /** Each account's flows collapsed as intended, accounts in place. */
  function CollapseAll(flow: Assoc<string, seq<Flow>>): (r: Assoc<string, seq<Flow>>)
    ensures Keys(r) == Keys(flow)
    ensures forall i :: 0 <= i < |r| ==> r[i].1 == Collapse(flow[i].1)
  {
    seq(|flow|, i requires 0 <= i < |flow| => (flow[i].0, Collapse(flow[i].1)))
  }

  /** One account's flows collapsed as written, the account kept. */
  function CollapseAccount(a: (string, seq<Flow>)): (r: Result<(string, seq<Flow>)>)
    ensures r.Ok? <==> CollapseAsWritten(a.1).Ok?
    ensures r.Ok? ==> r.value == (a.0, CollapseAsWritten(a.1).value)
    ensures r.Err? ==> r.error == AssertionError
  {
    match CollapseAsWritten(a.1)
    case Err(e) => Err(e)
    case Ok(fs) => Ok((a.0, fs))
  }

  /**
   * The loop of `prepare` over the accounts as written: each account's flows
   * are collapsed in turn, and the first account whose collapse fails raises.
   */
  function CollapseAllAsWritten(flow: Assoc<string, seq<Flow>>): (r: Result<Assoc<string, seq<Flow>>>)
    ensures r.Err? ==> r.error == AssertionError
  {
    TraverseError(flow, CollapseAccount, AssertionError);
    Traverse(flow, CollapseAccount)
  }

  /**
   * The accounts' collapse as written succeeds exactly when every account's
   * does, and then it is the intended collapse.
   */
  lemma CollapseAllAgrees(flow: Assoc<string, seq<Flow>>)
    ensures CollapseAllAsWritten(flow).Ok? <==> forall i :: 0 <= i < |flow| ==> CollapseAsWritten(flow[i].1).Ok?
    ensures CollapseAllAsWritten(flow).Ok? ==> CollapseAllAsWritten(flow).value == CollapseAll(flow)
  {
    TraverseOk(flow, CollapseAccount);
    var r := CollapseAllAsWritten(flow);
    if r.Ok? {
      forall i | 0 <= i < |flow| ensures r.value[i] == CollapseAll(flow)[i] {
        CollapseAgrees(flow[i].1);
      }
    }
  }

  /** When the accounts before i collapse and account i does not, account i's error is raised. */
  lemma CollapseAllFails(flow: Assoc<string, seq<Flow>>, i: int)
    requires 0 <= i < |flow| && CollapseAsWritten(flow[i].1).Err?
    requires forall j :: 0 <= j < i ==> CollapseAsWritten(flow[j].1).Ok?
    ensures CollapseAllAsWritten(flow) == Err(CollapseAsWritten(flow[i].1).error)
  {
    TraverseFails(flow, CollapseAccount, i);
  }

  /** The payee `prepare` keeps: none when the group names more than one. */
  function KeptPayee(e: Entry): Option<string>
  {
    if |Payees(e)| > 1 then None else e.payee
  }

  /** The comment `prepare` keeps: none when the group has more than one. */
  function KeptComment(e: Entry): Option<string>
  {
    if |Comments(e)| > 1 then None else e.comment
  }

  /**
   * `prepare()` as evidently intended: an entry that absorbed nothing is left
   * alone; otherwise its payee and its comment are dropped when the group has
   * more than one distinct value for them, and every account's flows are
   * collapsed with the intended sum.
   */
  function Prepared(e: Entry, split: bool): (r: Entry)
    ensures r.when == e.when
  {
    if !split then e else Entry(e.when, KeptPayee(e), KeptComment(e), CollapseAll(e.flow))
  }

  /**
   * `prepare()` as written: the same, except that a key group of an account
   * that `reduce(operator.add, g)` cannot sum raises AssertionError.
   */
  function PrepareAsWritten(e: Entry, split: bool): Result<Entry>
  {
    if !split then Ok(e)
    else
      match CollapseAllAsWritten(e.flow)
      case Err(err) => Err(err)
      case Ok(flow) => Ok(Entry(e.when, KeptPayee(e), KeptComment(e), flow))
  }

  /**
   * `prepare` as written fails only on a group whose accounts cannot all be
   * collapsed, and wherever it succeeds it gives the intended entry.
   */
  lemma PrepareAgrees(e: Entry, split: bool)
    ensures PrepareAsWritten(e, split).Ok? <==> !split || forall i :: 0 <= i < |e.flow| ==> CollapseAsWritten(e.flow[i].1).Ok?
    ensures PrepareAsWritten(e, split).Ok? ==> PrepareAsWritten(e, split).value == Prepared(e, split)
  {
    CollapseAllAgrees(e.flow);
  }

  lemma PreparedValue(e: Entry, split: bool)
    requires PrepareAsWritten(e, split).Ok?
    ensures PrepareAsWritten(e, split).value == Prepared(e, split)
  {
    PrepareAgrees(e, split);
  }

  /** An account holding three equal annotated flows makes `prepare` raise AssertionError. */
  lemma PrepareCrash(e: Entry, i: int, f: Flow)
    requires 0 <= i < |e.flow| && e.flow[i].1 == [f, f, f] && (f.payee.Some? || f.comment.Some?)
    ensures PrepareAsWritten(e, true) == Err(AssertionError)
  {
    CollapseCrash(f);
    PrepareAgrees(e, true);
  }

  /** What a generator has yielded when it stops, and the exception it stopped with, if any. */
  datatype Yielded = Yielded(entries: seq<Entry>, error: Option<Error>)

  /** The runs prepared in order until the first one `prepare` cannot handle. */
  function PrepareRuns(r: seq<seq<Entry>>): (y: Yielded)
    requires forall i :: 0 <= i < |r| ==> |r[i]| > 0
  {
    if r == [] then Yielded([], None)
    else
      var y := PrepareRuns(r[..|r| - 1]);
      var last := r[|r| - 1];
      if y.error.Some? then y
      else
        match PrepareAsWritten(Merged(last), |last| > 1)
        case Err(e) => Yielded(y.entries, Some(e))
        case Ok(x) => Yielded(y.entries + [x], None)
  }

  /** The runs that `PrepareRuns` yields: each the intended one, every run before the first that fails. */
  ghost predicate YieldsRuns(r: seq<seq<Entry>>, y: Yielded)
    requires forall i :: 0 <= i < |r| ==> |r[i]| > 0
  {
    && |y.entries| <= |r|
    && (y.error.None? ==> |y.entries| == |r|)
    && (forall i :: 0 <= i < |y.entries| ==> PrepareAsWritten(Merged(r[i]), |r[i]| > 1).Ok?)
    && (forall i :: 0 <= i < |y.entries| ==> y.entries[i] == Prepared(Merged(r[i]), |r[i]| > 1))
    && (y.error.Some? ==> |y.entries| < |r| && PrepareAsWritten(Merged(r[|y.entries|]), |r[|y.entries|]| > 1) == Err(y.error.value))
  }

  /**
   * Preparing the runs in order: every entry yielded is the intended one, the
   * runs are yielded until the first that `prepare` cannot handle, and an
   * error is that run's.
   */
  lemma {:induction false} PrepareRunsYields(r: seq<seq<Entry>>)
    requires forall i :: 0 <= i < |r| ==> |r[i]| > 0
    ensures YieldsRuns(r, PrepareRuns(r))
  {
    if r != [] {
      var front, last := r[..|r| - 1], r[|r| - 1];
      assert forall i :: 0 <= i < |front| ==> front[i] == r[i];
      PrepareRunsYields(front);
      var y := PrepareRuns(front);
      if y.error.Some? {
        KeepYield(r, y);
      } else {
        match PrepareAsWritten(Merged(last), |last| > 1)
        case Err(e) =>
          KeepYield(r, Yielded(y.entries, Some(e)));
        case Ok(x) =>
          PreparedValue(Merged(last), |last| > 1);
          SnocYield(r, y, x);
      }
    }
  }

  /** Runs after the first failure change nothing that was yielded. */
  lemma KeepYield(r: seq<seq<Entry>>, y: Yielded)
    requires |r| > 0 && forall i :: 0 <= i < |r| ==> |r[i]| > 0
    requires |y.entries| < |r| && y.error.Some?
    requires forall i :: 0 <= i < |y.entries| ==> PrepareAsWritten(Merged(r[i]), |r[i]| > 1).Ok?
    requires forall i :: 0 <= i < |y.entries| ==> y.entries[i] == Prepared(Merged(r[i]), |r[i]| > 1)
    requires PrepareAsWritten(Merged(r[|y.entries|]), |r[|y.entries|]| > 1) == Err(y.error.value)
    ensures YieldsRuns(r, y)
  {
  }

  lemma SnocYield(r: seq<seq<Entry>>, y: Yielded, x: Entry)
    requires |r| > 0 && forall i :: 0 <= i < |r| ==> |r[i]| > 0
    requires YieldsRuns(r[..|r| - 1], y) && y.error.None?
    requires PrepareAsWritten(Merged(r[|r| - 1]), |r[|r| - 1]| > 1) == Ok(x)
    requires x == Prepared(Merged(r[|r| - 1]), |r[|r| - 1]| > 1)
    ensures YieldsRuns(r, Yielded(y.entries + [x], None))
  {
    var front, out := r[..|r| - 1], y.entries + [x];
    forall i | 0 <= i < |out|
      ensures PrepareAsWritten(Merged(r[i]), |r[i]| > 1).Ok? && out[i] == Prepared(Merged(r[i]), |r[i]| > 1)
    {
      if i < |y.entries| {
        assert front[i] == r[i] && out[i] == y.entries[i];
      }
    }
  }

  /**
   * What `merge_splits` yields from a stream of entries that ends, or stops
   * with the exception upstream: each maximal run of equal times merged and
   * prepared, in order. The run still gathering when the stream raises is
   * never prepared; otherwise the last run is prepared once the stream ends.
   */
  function MergeSplitsSpec(entries: seq<Entry>, upstream: Option<Error>): (y: Yielded)
    ensures var r := Runs(entries, WhenOf);
      && |y.entries| <= |r| <= |entries|
      && (forall i :: 0 <= i < |y.entries| ==> y.entries[i] == Prepared(Merged(r[i]), |r[i]| > 1))
      && (upstream.Some? ==> y.error.Some?)
      && (upstream.None? ==> (y.error.None? <==> forall i :: 0 <= i < |r| ==> PrepareAsWritten(Merged(r[i]), |r[i]| > 1).Ok?))
      && (y.error.Some? && y.error != upstream ==>
            |y.entries| < |r| && PrepareAsWritten(Merged(r[|y.entries|]), |r[|y.entries|]| > 1) == Err(y.error.value))
  {
    var r := Runs(entries, WhenOf);
    if upstream.None? then
      PrepareRunsYields(r);
      PrepareRuns(r)
    else if r == [] then Yielded([], upstream)
    else
      var y := PrepareRuns(r[..|r| - 1]);
      PrepareRunsYields(r[..|r| - 1]);
      assert forall i :: 0 <= i < |r| - 1 ==> r[..|r| - 1][i] == r[i];
      if y.error.Some? then y else Yielded(y.entries, upstream)
  }

  /** The loop of `merge_splits` over one absorbed entry: `cur.flow[acc] = flow` or `sflow + flow`. */
  method AbsorbInto(flow: Assoc<string, seq<Flow>>, more: Assoc<string, seq<Flow>>) returns (r: Assoc<string, seq<Flow>>)
    ensures r == Absorb(flow, more)
  {
    r := flow;
    for j := 0 to |more|
      invariant r == Absorb(flow, more[..j])
    {
      assert more[..j + 1][..j] == more[..j];
      var (acc, fs) := more[j];
      assert Absorb(flow, more[..j + 1]) == Put(r, acc, GetOr(r, acc) + fs);
      var sflow := Get(r, acc);
      if sflow.None? {
        assert GetOr(r, acc) + fs == fs;
        r := Put(r, acc, fs);
      } else {
        r := Put(r, acc, sflow.value + fs);
      }
    }
    assert more[..|more|] == more;
  }

  /** The loop of `prepare` that replaces each account's flows by their collapse, in place. */
  method CollapseAccounts(flow: Assoc<string, seq<Flow>>) returns (r: Result<Assoc<string, seq<Flow>>>)
    ensures r == CollapseAllAsWritten(flow)
  {
    var cur := flow;
    for i := 0 to |cur|
      invariant |cur| == |flow|
      invariant Traverse(flow[..i], CollapseAccount).Ok?
      invariant cur == Traverse(flow[..i], CollapseAccount).value + flow[i..]
    {
      ghost var done := Traverse(flow[..i], CollapseAccount).value;
      var (acc, flows) := cur[i];
      assert (acc, flows) == flow[i] by {
        assert cur[i] == flow[i..][0];
      }
      var collapsed := CollapseAsWritten(flows);
      TraverseStep(flow, CollapseAccount, i);
      if collapsed.Err? {
        return Err(collapsed.error);
      }
      Splice(done, flow[i..], (acc, collapsed.value));
      cur := cur[i := (acc, collapsed.value)];
    }
    assert flow[..|flow|] == flow && flow[|flow|..] == [];
    assert cur == Traverse(flow, CollapseAccount).value;
    r := Ok(cur);
    assert r == CollapseAllAsWritten(flow);
  }

  lemma Splice<T>(done: seq<T>, rest: seq<T>, x: T)
    requires |rest| > 0
    ensures (done + rest)[|done| := x] == (done + [x]) + rest[1..]
  {
  }

  /** `prepare()`: the payee, then the comment, then each account's flows in turn. */
  method Prepare(cur: Entry, split: bool) returns (r: Result<Entry>)
    ensures r == PrepareAsWritten(cur, split)
  {
    if !split {
      return Ok(cur);
    }
    var e := cur;
    if |Payees(cur)| > 1 {
      e := e.(payee := None);
    }
    if |Comments(cur)| > 1 {
      e := e.(comment := None);
    }
    var flow := CollapseAccounts(cur.flow);
    if flow.Err? {
      return Err(flow.error);
    }
    r := Ok(e.(flow := flow.value));
  }

  /**
   * `merge_splits` over the entries read before the stream ended, or before it
   * raised upstream: the first entry of a run is kept and absorbs the rest; a
   * change of time yields it prepared, and an exception in `prepare` ends it.
   */
  method MergeSplits(entries: seq<Entry>, upstream: Option<Error>) returns (out: seq<Entry>, error: Option<Error>)
    ensures Yielded(out, error) == MergeSplitsSpec(entries, upstream)
  {
    var cur: Option<Entry> := None;
    var split := false;
    out := [];
    for i := 0 to |entries|
      invariant i == 0 <==> cur.None?
      invariant i == 0 ==> out == [] && !split
      invariant i > 0 ==> Invariant(entries[..i], out, cur.value, split)
    {
      var entry := entries[i];
      if cur.None? {
        cur := Some(entry);
        RunsStart(entries);
        continue;
      }
      if entry.when != cur.value.when {
        var done := Prepare(cur.value, split);
        if done.Err? {
          RunsFail(entries, i, upstream, out, cur.value, split);
          return out, Some(done.error);
        }
        RunsNew(entries, i, out, cur.value, split);
        out := out + [done.value];
        cur := Some(entry);
        split := false;
        continue;
      }
      RunsJoin(entries, i, out, cur.value, split);
      split := true;
      var flow := AbsorbInto(cur.value.flow, entry.flow);
      cur := Some(cur.value.(flow := flow));
    }
    if upstream.Some? {
      if cur.Some? {
        RunsStopped(entries, upstream, out, cur.value, split);
      }
      return out, upstream;
    }
    error := None;
    if cur.Some? {
      var done := Prepare(cur.value, split);
      RunsFinish(entries, out, cur.value, split);
      if done.Err? {
        return out, Some(done.error);
      }
      out := out + [done.value];
    }
  }

  /** The state of `merge_splits` after the prefix s: the finished runs yielded, the last one pending in cur. */
  ghost predicate Invariant(s: seq<Entry>, out: seq<Entry>, cur: Entry, split: bool)
  {
    var r := Runs(s, WhenOf);
    && |r| > 0
    && PrepareRuns(r[..|r| - 1]) == Yielded(out, None)
    && cur == Merged(r[|r| - 1])
    && (split <==> |r[|r| - 1]| > 1)
  }

  lemma RunsStart(s: seq<Entry>)
    requires |s| > 0
    ensures Invariant(s[..1], [], s[0], false)
  {
    var e := s[0];
    assert s[..1] == [e];
    assert Runs([e], WhenOf) == [[e]] by {
      assert [e][..0] == [];
    }
  }

  /** An entry with another time yields the pending run, prepared, and starts a new one. */
  lemma RunsNew(entries: seq<Entry>, i: int, out: seq<Entry>, cur: Entry, split: bool)
    requires 0 < i < |entries|
    requires Invariant(entries[..i], out, cur, split) && entries[i].when != cur.when
    requires PrepareAsWritten(cur, split).Ok?
    ensures Invariant(entries[..i + 1], out + [PrepareAsWritten(cur, split).value], entries[i], false)
  {
    var s, e := entries[..i], entries[i];
    PrefixNext(entries, i);
    var r := Runs(s, WhenOf);
    RunsAppendNew(s, e, WhenOf);
    Snoc(r, [e]);
  }

  /** An entry with the pending time joins the pending run. */
  lemma RunsJoin(entries: seq<Entry>, i: int, out: seq<Entry>, cur: Entry, split: bool)
    requires 0 < i < |entries|
    requires Invariant(entries[..i], out, cur, split) && entries[i].when == cur.when
    ensures Invariant(entries[..i + 1], out, cur.(flow := Absorb(cur.flow, entries[i].flow)), true)
  {
    var s, e := entries[..i], entries[i];
    PrefixNext(entries, i);
    var r := Runs(s, WhenOf);
    var last := r[|r| - 1];
    RunsAppendJoin(s, e, WhenOf);
    Snoc(r[..|r| - 1], last + [e]);
    Snoc(last, e);
  }

  /**
   * When `prepare` raises on the pending run, that exception is what
   * `merge_splits` stops with, whatever comes after.
   */
  lemma RunsFail(entries: seq<Entry>, i: int, upstream: Option<Error>, out: seq<Entry>, cur: Entry, split: bool)
    requires 0 < i < |entries|
    requires Invariant(entries[..i], out, cur, split) && entries[i].when != cur.when
    requires PrepareAsWritten(cur, split).Err?
    ensures MergeSplitsSpec(entries, upstream) == Yielded(out, Some(PrepareAsWritten(cur, split).error))
  {
    var a, r := Runs(entries[..i], WhenOf), Runs(entries, WhenOf);
    assert PrepareRuns(a).error.Some? by {
      assert a[..|a|] == a;
    }
    RunsClosed(entries, i, WhenOf);
    var closed := if upstream.None? then r else r[..|r| - 1];
    assert closed[..|a|] == a;
    PrepareRunsPrefix(closed, |a|);
  }

  /** Once an entry with another time arrives, the runs read so far are the first runs of all. */
  /** A run that fails in `prepare` ends the runs prepared after it. */
  lemma {:induction false} PrepareRunsPrefix(r: seq<seq<Entry>>, k: int)
    requires forall i :: 0 <= i < |r| ==> |r[i]| > 0
    requires 0 <= k <= |r| && PrepareRuns(r[..k]).error.Some?
    ensures PrepareRuns(r) == PrepareRuns(r[..k])
    decreases |r|
  {
    if k < |r| {
      var front := r[..|r| - 1];
      assert front[..k] == r[..k];
      PrepareRunsPrefix(front, k);
    } else {
      assert r[..k] == r;
    }
  }

  /** An exception upstream leaves the pending run unprepared and is what `merge_splits` stops with. */
  lemma RunsStopped(s: seq<Entry>, upstream: Option<Error>, out: seq<Entry>, cur: Entry, split: bool)
    requires upstream.Some? && Invariant(s[..|s|], out, cur, split)
    ensures MergeSplitsSpec(s, upstream) == Yielded(out, upstream)
  {
    assert s[..|s|] == s;
  }

  /** At the end of the stream the pending run is prepared last. */
  lemma RunsFinish(s: seq<Entry>, out: seq<Entry>, cur: Entry, split: bool)
    requires Invariant(s[..|s|], out, cur, split)
    ensures MergeSplitsSpec(s, None) == match PrepareAsWritten(cur, split)
      case Err(e) => Yielded(out, Some(e))
      case Ok(x) => Yielded(out + [x], None)
  {
    assert s[..|s|] == s;
  }

  lemma Snoc<T>(s: seq<T>, x: T)
    ensures (s + [x])[..|s|] == s && (s + [x])[|s|] == x && |s + [x]| == |s| + 1
  {
  }

  lemma PrefixNext<T>(s: seq<T>, i: int)
    requires 0 <= i < |s|
    ensures s[..i + 1] == s[..i] + [s[i]]
  {
  }

  lemma ValidPrefix(m: Assoc<string, seq<Flow>>, n: nat)
    requires Valid(m) && n <= |m|
    ensures Valid(m[..n])
  {
    assert forall i :: 0 <= i < n ==> Keys(m[..n])[i] == Keys(m)[i];
  }

  /** The last pair of a dict holds the only value of its key. */
  lemma LastPair(m: Assoc<string, seq<Flow>>)
    requires Valid(m) && |m| > 0
    ensures GetOr(m, m[|m| - 1].0) == m[|m| - 1].1
    ensures m[|m| - 1].0 !in Keys(m[..|m| - 1])
    ensures forall k :: k != m[|m| - 1].0 ==> GetOr(m, k) == GetOr(m[..|m| - 1], k)
  {
    var front, p := m[..|m| - 1], m[|m| - 1];
    assert m == front + [p];
    GetValid(m, |m| - 1);
    assert forall i :: 0 <= i < |front| ==> Keys(front)[i] == Keys(m)[i];
    AppendKeepsGet(front, p);
    forall k | k != p.0 && k !in Keys(front) ensures GetOr(m, k) == GetOr(front, k) {
      assert k !in Keys(m);
    }
  }

  /**
   * Folding more into flow: every account ends with its own flows followed by
   * more's flows for it, and the result is still a dict.
   */
  lemma {:induction false} AbsorbGet(flow: Assoc<string, seq<Flow>>, more: Assoc<string, seq<Flow>>)
    requires Valid(flow) && Valid(more)
    ensures Valid(Absorb(flow, more))
    ensures forall acc :: GetOr(Absorb(flow, more), acc) == GetOr(flow, acc) + GetOr(more, acc)
  {
    if more != [] {
      var front, a, fs := more[..|more| - 1], more[|more| - 1].0, more[|more| - 1].1;
      ValidPrefix(more, |more| - 1);
      AbsorbGet(flow, front);
      LastPair(more);
      var f := Absorb(flow, front);
      var r := Put(f, a, GetOr(f, a) + fs);
      assert Absorb(flow, more) == r;
      forall acc ensures GetOr(r, acc) == GetOr(flow, acc) + GetOr(more, acc) {
        PutGetOr(f, a, GetOr(f, a) + fs, acc);
        if acc == a {
          assert GetOr(front, a) == [];
          assert GetOr(flow, a) + [] == GetOr(flow, a);
        }
      }
    }
  }

  /** After `d[k] = v` the key k holds v and every other key what it held. */
  lemma PutGetOr(m: Assoc<string, seq<Flow>>, k: string, v: seq<Flow>, acc: string)
    requires Valid(m)
    ensures GetOr(Put(m, k, v), acc) == if acc == k then v else GetOr(m, acc)
  {
    var r := Put(m, k, v);
    if acc != k && acc !in Keys(m) {
      assert acc !in Keys(r);
    }
  }

  /** Folding keeps the accounts of flow where they are; new ones only come after them. */
  lemma {:induction false} AbsorbKeys(flow: Assoc<string, seq<Flow>>, more: Assoc<string, seq<Flow>>)
    ensures |Absorb(flow, more)| >= |flow|
    ensures Keys(Absorb(flow, more))[..|flow|] == Keys(flow)
  {
    if more != [] {
      AbsorbKeys(flow, more[..|more| - 1]);
    }
  }

  /** The flows the members of a run hold for one account, in arrival order. */
  function Gathered(run: seq<Entry>, acc: string): seq<Flow>
  {
    if run == [] then [] else Gathered(run[..|run| - 1], acc) + GetOr(run[|run| - 1].flow, acc)
  }

  /**
   * Merging a run whose entries each hold a dict of flows: each account of the
   * result holds the members' flows for it, concatenated in arrival order.
   */
  lemma {:induction false} MergedGathered(run: seq<Entry>)
    requires |run| > 0 && forall i :: 0 <= i < |run| ==> Valid(run[i].flow)
    ensures Valid(Merged(run).flow)
    ensures forall acc :: GetOr(Merged(run).flow, acc) == Gathered(run, acc)
  {
    var front := run[..|run| - 1];
    if |run| == 1 {
      assert front == [];
    } else {
      MergedGathered(front);
      AbsorbGet(Merged(front).flow, run[|run| - 1].flow);
    }
  }

  /** The accounts of the run's first entry stay first, in their order. */
  lemma {:induction false} MergedKeys(run: seq<Entry>)
    requires |run| > 0
    ensures |Merged(run).flow| >= |run[0].flow|
    ensures Keys(Merged(run).flow)[..|run[0].flow|] == Keys(run[0].flow)
  {
    if |run| > 1 {
      var front := run[..|run| - 1];
      MergedKeys(front);
      AbsorbKeys(Merged(front).flow, run[|run| - 1].flow);
    }
  }

  lemma {:induction false} FlowTotalUpdate(m: Assoc<string, seq<Flow>>, i: int, p: (string, seq<Flow>), c: string)
    requires 0 <= i < |m|
    ensures FlowTotal(m[i := p], c) == FlowTotal(m, c) - Total(m[i].1, c) + Total(p.1, c)
  {
    if i == 0 {
      assert m[i := p][1..] == m[1..];
    } else {
      assert m[i := p][1..] == m[1..][i - 1 := p];
      FlowTotalUpdate(m[1..], i - 1, p, c);
    }
  }

  lemma {:induction false} FlowTotalAppend(m: Assoc<string, seq<Flow>>, p: (string, seq<Flow>), c: string)
    ensures FlowTotal(m + [p], c) == FlowTotal(m, c) + Total(p.1, c)
  {
    if m == [] {
      assert [p][1..] == [];
    } else {
      assert (m + [p])[1..] == m[1..] + [p];
      FlowTotalAppend(m[1..], p, c);
    }
  }

  /** `d[k] = v` changes a currency's total by what v holds instead of k's old flows. */
  lemma FlowTotalPut(m: Assoc<string, seq<Flow>>, k: string, v: seq<Flow>, c: string)
    ensures FlowTotal(Put(m, k, v), c) == FlowTotal(m, c) - Total(GetOr(m, k), c) + Total(v, c)
  {
    match IndexOf(m, k)
    case None =>
      FlowTotalAppend(m, (k, v), c);
    case Some(i) =>
      FlowTotalUpdate(m, i, (k, v), c);
  }

  /** Folding more into flow adds more's total, currency by currency. */
  lemma {:induction false} AbsorbTotal(flow: Assoc<string, seq<Flow>>, more: Assoc<string, seq<Flow>>, c: string)
    ensures FlowTotal(Absorb(flow, more), c) == FlowTotal(flow, c) + FlowTotal(more, c)
  {
    if more != [] {
      var front, a, fs := more[..|more| - 1], more[|more| - 1].0, more[|more| - 1].1;
      var f := Absorb(flow, front);
      var before := GetOr(f, a);
      assert Absorb(flow, more) == Put(f, a, before + fs);
      assert FlowTotal(f, c) == FlowTotal(flow, c) + FlowTotal(front, c) by {
        AbsorbTotal(flow, front, c);
      }
      assert FlowTotal(Put(f, a, before + fs), c) == FlowTotal(f, c) + Total(fs, c) by {
        FlowTotalPut(f, a, before + fs, c);
        TotalAppend(before, fs, c);
      }
      assert FlowTotal(more, c) == FlowTotal(front, c) + Total(fs, c) by {
        FlowTotalAppend(front, more[|more| - 1], c);
        FrontLast(more);
      }
    }
  }

  lemma FrontLast<T>(s: seq<T>)
    requires |s| > 0
    ensures s[..|s| - 1] + [s[|s| - 1]] == s
  {
  }

  /** The total in currency c over all the entries of a run. */
  function RunTotal(run: seq<Entry>, c: string): int
  {
    if run == [] then 0 else RunTotal(run[..|run| - 1], c) + FlowTotal(run[|run| - 1].flow, c)
  }

  /** Merging a run books exactly what its members booked. */
  lemma {:induction false} MergedTotal(run: seq<Entry>, c: string)
    requires |run| > 0
    ensures FlowTotal(Merged(run).flow, c) == RunTotal(run, c)
  {
    var front := run[..|run| - 1];
    if |run| == 1 {
      assert front == [];
    } else {
      MergedTotal(front, c);
      AbsorbTotal(Merged(front).flow, run[|run| - 1].flow, c);
    }
  }

  lemma {:induction false} CollapseAllTotal(flow: Assoc<string, seq<Flow>>, c: string)
    ensures FlowTotal(CollapseAll(flow), c) == FlowTotal(flow, c)
  {
    if flow != [] {
      assert CollapseAll(flow)[1..] == CollapseAll(flow[1..]);
      CollapseAllTotal(flow[1..], c);
      CollapseTotal(flow[0].1, c);
    }
  }

  /** `prepare` keeps each account's total in each currency. */
  lemma PreparedAccountTotal(e: Entry, split: bool, acc: string, c: string)
    ensures Total(GetOr(Prepared(e, split).flow, acc), c) == Total(GetOr(e.flow, acc), c)
  {
    if split {
      var r := CollapseAll(e.flow);
      IndexOfKeys(r, e.flow, acc);
      match IndexOf(e.flow, acc)
      case None =>
      case Some(i) =>
        CollapseTotal(e.flow[i].1, c);
    }
  }

  /** `prepare` keeps the entry's total in each currency. */
  lemma PreparedTotal(e: Entry, split: bool, c: string)
    ensures FlowTotal(Prepared(e, split).flow, c) == FlowTotal(e.flow, c)
  {
    if split {
      CollapseAllTotal(e.flow, c);
    }
  }

  /** A run of balanced entries merges and prepares into a balanced entry. */
  lemma MergedBalanced(run: seq<Entry>, split: bool)
    requires |run| > 0 && forall i :: 0 <= i < |run| ==> Balanced(run[i].flow)
    ensures Balanced(Prepared(Merged(run), split).flow)
  {
    forall c ensures FlowTotal(Prepared(Merged(run), split).flow, c) == 0 {
      PreparedTotal(Merged(run), split, c);
      MergedTotal(run, c);
      RunTotalZero(run, c);
    }
  }

  lemma {:induction false} RunTotalZero(run: seq<Entry>, c: string)
    requires forall i :: 0 <= i < |run| ==> FlowTotal(run[i].flow, c) == 0
    ensures RunTotal(run, c) == 0
  {
    if run != [] {
      RunTotalZero(run[..|run| - 1], c);
    }
  }

  /** When every entry balances, so does everything `merge_splits` yields. */
  lemma MergeSplitsBalanced(entries: seq<Entry>, upstream: Option<Error>)
    requires forall e :: e in entries ==> Balanced(e.flow)
    ensures forall o :: o in MergeSplitsSpec(entries, upstream).entries ==> Balanced(o.flow)
  {
    var r: seq<seq<Entry>> := Runs(entries, WhenOf);
    var out := MergeSplitsSpec(entries, upstream).entries;
    RunsFlatten(entries, WhenOf);
    forall i | 0 <= i < |out| ensures Balanced(out[i].flow) {
      forall j | 0 <= j < |r[i]| ensures Balanced(r[i][j].flow) {
        FlattenContains(r, i, j);
      }
      MergedBalanced(r[i], |r[i]| > 1);
    }
  }

  /** A set of at most one element holds no two different values. */
  lemma AtMostOne(s: set<string>, x: string, y: string)
    requires |s| <= 1 && x in s && y in s
    ensures x == y
  {
    var rest := s - {x};
    assert s == rest + {x} && x !in rest;
    assert |rest| == 0;
    assert y !in rest;
  }

  /**
   * `prepare` on a group drops the payee exactly when the group names more
   * than one; a payee it keeps is the payee of every flow that names one.
   */
  lemma PreparedPayee(e: Entry)
    ensures var r := Prepared(e, true);
      && (r.payee != e.payee <==> e.payee.Some? && |Payees(e)| > 1)
      && (Truthy(r.payee) ==> forall f :: f in AllFlows(e.flow) && Truthy(f.payee) ==> f.payee == r.payee)
  {
    var r := Prepared(e, true);
    if Truthy(r.payee) {
      forall f | f in AllFlows(e.flow) && Truthy(f.payee) ensures f.payee == r.payee {
        assert f.payee.value in Payees(e);
        AtMostOne(Payees(e), f.payee.value, e.payee.value);
      }
    }
  }

  /** The same rule for the comment. */
  lemma PreparedComment(e: Entry)
    ensures var r := Prepared(e, true);
      && (r.comment != e.comment <==> e.comment.Some? && |Comments(e)| > 1)
      && (Truthy(r.comment) ==> forall f :: f in AllFlows(e.flow) && Truthy(f.comment) ==> f.comment == r.comment)
  {
    var r := Prepared(e, true);
    if Truthy(r.comment) {
      forall f | f in AllFlows(e.flow) && Truthy(f.comment) ensures f.comment == r.comment {
        assert f.comment.value in Comments(e);
        AtMostOne(Comments(e), f.comment.value, e.comment.value);
      }
    }
  }

  /**
   * Entries whose neighbours all differ in time come out exactly as they went
   * in, and `prepare` never raises on them.
   */
  lemma MergeDistinctTimes(entries: seq<Entry>)
    requires forall i :: 0 < i < |entries| ==> entries[i - 1].when != entries[i].when
    ensures MergeSplitsSpec(entries, None) == Yielded(entries, None)
  {
    RunsOfOne(entries, WhenOf);
    var r := Runs(entries, WhenOf);
    forall i | 0 <= i < |r| ensures Merged(r[i]) == entries[i] && PrepareAsWritten(Merged(r[i]), |r[i]| > 1).Ok? {
      assert r[i] == [entries[i]];
    }
    var y := MergeSplitsSpec(entries, None);
    assert y.error.None?;
    assert |y.entries| == |entries| && forall i :: 0 <= i < |entries| ==> y.entries[i] == entries[i] by {
      PrepareRunsYields(r);
    }
  }

  /**
   * Every entry merged into an output has that output's time, and neighbouring
   * outputs have different times: one output per maximal run.
   */
  lemma MergeSplitsTimes(entries: seq<Entry>, upstream: Option<Error>)
    ensures var r, out := Runs(entries, WhenOf), MergeSplitsSpec(entries, upstream).entries;
      && (forall i, j :: 0 <= i < |out| && 0 <= j < |r[i]| ==> r[i][j].when == out[i].when)
      && (forall i :: 0 < i < |out| ==> out[i - 1].when != out[i].when)
  {
    RunsUniform(entries, WhenOf);
    RunsMaximal(entries, WhenOf);
  }

  /** Entries in time order merge into entries in strictly increasing time order. */
  lemma MergeSplitsInOrder(entries: seq<Entry>, upstream: Option<Error>)
    requires InOrder(entries)
    ensures var out := MergeSplitsSpec(entries, upstream).entries;
      forall i, j :: 0 <= i < j < |out| ==> Before(out[i].when, out[j].when)
  {
    var r, out := Runs(entries, WhenOf), MergeSplitsSpec(entries, upstream).entries;
    var below := (a: Entry, b: Entry) => !Before(b.when, a.when);
    RunsHeadsInOrder(entries, WhenOf, below);
    MergeSplitsTimes(entries, upstream);
    forall i, j | 0 <= i < j < |out| ensures Before(out[i].when, out[j].when) {
      assert below(r[i][0], r[j][0]);
      if j == i + 1 {
        BeforeStrictTotal(out[i].when, out[j].when, out[j].when);
      } else {
        assert below(r[i][0], r[i + 1][0]);
        BeforeStrictTotal(out[i].when, out[i + 1].when, out[j].when);
        BeforeStrictTotal(out[i].when, out[j].when, out[i + 1].when);
        BeforeStrictTotal(out[i + 1].when, out[j].when, out[i].when);
      }
    }
  }

  /**
   * Three postings of one split under a parent with the payee "Shop", as the
   * extractor yields them: `merge_splits` folds them into one group, and
   * `prepare` raises AssertionError before anything is yielded.
   */
  lemma MergeSplitsCrash(when: Timestamp)
    ensures var g, f := Flow(100, "EUR", None, None), Flow(-100, "EUR", Some("Shop"), None);
      var e := Entry(when, Some("Shop"), None, [("Assets:Cash", [g]), ("Expenses:Food", [f])]);
      MergeSplitsSpec([e, e, e], None) == Yielded([], Some(AssertionError))
  {
    var g, f := Flow(100, "EUR", None, None), Flow(-100, "EUR", Some("Shop"), None);
    var e := Entry(when, Some("Shop"), None, [("Assets:Cash", [g]), ("Expenses:Food", [f])]);
    var run := [e, e, e];
    assert Runs(run, WhenOf) == [run] by {
      RunsOfEqualKeys(run, WhenOf, when);
    }
    assert PrepareAsWritten(Merged(run), true) == Err(AssertionError) by {
      MergedThree(e, "Assets:Cash", "Expenses:Food", g, f);
      PrepareCrash(Merged(run), 1, f);
    }
    PrepareRunsOne(run);
  }

  /** A single run is prepared on its own. */
  lemma PrepareRunsOne(run: seq<Entry>)
    requires |run| > 0
    ensures PrepareRuns([run]) == match PrepareAsWritten(Merged(run), |run| > 1)
      case Err(err) => Yielded([], Some(err))
      case Ok(x) => Yielded([x], None)
  {
    assert [run][..0] == [];
  }

  /** Three copies of an entry with two accounts merge into one entry holding each flow three times. */
  lemma MergedThree(e: Entry, a: string, b: string, g: Flow, f: Flow)
    requires a != b && e.flow == [(a, [g]), (b, [f])]
    ensures Merged([e, e, e]).flow == [(a, [g, g, g]), (b, [f, f, f])]
  {
    var run := [e, e, e];
    assert run[..2] == [e, e] && [e, e][..1] == [e];
    assert Merged([e, e]).flow == [(a, [g, g]), (b, [f, f])] by {
      assert Merged([e]) == e;
      AbsorbTwo(a, b, [g], [f], [g], [f]);
      assert [g] + [g] == [g, g] && [f] + [f] == [f, f];
    }
    AbsorbTwo(a, b, [g, g], [f, f], [g], [f]);
    assert [g, g] + [g] == [g, g, g] && [f, f] + [f] == [f, f, f];
  }

  /** Two accounts folded into the same two accounts: each gathers its flows. */
  lemma AbsorbTwo(a: string, b: string, x: seq<Flow>, y: seq<Flow>, x': seq<Flow>, y': seq<Flow>)
    requires a != b
    ensures Absorb([(a, x), (b, y)], [(a, x'), (b, y')]) == [(a, x + x'), (b, y + y')]
  {
    var flow, more := [(a, x), (b, y)], [(a, x'), (b, y')];
    assert more[..1] == [(a, x')] && [(a, x')][..0] == [];
    assert Absorb(flow, []) == flow;
    assert IndexOf(flow, a) == Some(0);
    var first := Absorb(flow, more[..1]);
    assert first == [(a, x + x'), (b, y)];
    assert first[1..] == [(b, y)];
    assert IndexOf(first, b) == Some(1);
    assert Absorb(flow, more) == Put(first, b, GetOr(first, b) + y');
  }
}
