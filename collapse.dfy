/**
 * The collapse step of `prepare`: an account's flows sorted by
 * `(amount > 0, str(currency), str(payee), str(comment))`, cut into runs of
 * equal keys, and each run summed with `reduce(operator.add, run)`.
 */
module Collapsing {
  import opened Wrappers
  import opened Text
  import opened Money
  import opened Entries
  import opened Grouping

  datatype FlowKey = FlowKey(positive: bool, currency: string, payee: string, comment: string)

  /** The sort key of a flow; `str` makes a missing payee and the payee "None" the same key. */
  function KeyOf(f: Flow): (k: FlowKey)
    ensures k.positive <==> f.amount > 0
    ensures k.currency == f.currency
    ensures f.payee.Some? ==> k.payee == f.payee.value
    ensures f.payee.None? ==> k.payee == "None"
    ensures f.comment.Some? ==> k.comment == f.comment.value
    ensures f.comment.None? ==> k.comment == "None"
  {
    FlowKey(f.amount > 0, f.currency, Str(f.payee), Str(f.comment))
  }

  /** Python's order on the key tuples: False before True, then the strings in turn. */
  predicate KeyLess(a: FlowKey, b: FlowKey)
  {
    if a.positive != b.positive then !a.positive
    else if a.currency != b.currency then StrLess(a.currency, b.currency)
    else if a.payee != b.payee then StrLess(a.payee, b.payee)
    else StrLess(a.comment, b.comment)
  }

  lemma KeyLessIrreflexive(a: FlowKey)
    ensures !KeyLess(a, a)
  {
    StrLessIrreflexive(a.comment);
  }

  lemma KeyLessTransitive(a: FlowKey, b: FlowKey, c: FlowKey)
    requires KeyLess(a, b) && KeyLess(b, c)
    ensures KeyLess(a, c)
  {
    if a.positive == b.positive == c.positive {
      if a.currency != b.currency && b.currency != c.currency {
        StrLessTransitive(a.currency, b.currency, c.currency);
        if a.currency == c.currency { StrLessAsymmetric(a.currency, b.currency); }
      } else if a.currency == b.currency == c.currency {
        if a.payee != b.payee && b.payee != c.payee {
          StrLessTransitive(a.payee, b.payee, c.payee);
          if a.payee == c.payee { StrLessAsymmetric(a.payee, b.payee); }
        } else if a.payee == b.payee == c.payee {
          StrLessTransitive(a.comment, b.comment, c.comment);
        }
      }
    }
  }

  lemma KeyLessTotal(a: FlowKey, b: FlowKey)
    ensures a == b || KeyLess(a, b) || KeyLess(b, a)
  {
    StrLessTotal(a.currency, b.currency);
    StrLessTotal(a.payee, b.payee);
    StrLessTotal(a.comment, b.comment);
  }

  /** Sorted by key, equal keys allowed side by side. */
  predicate SortedByKey(s: seq<Flow>)
  {
    forall i, j :: 0 <= i < j < |s| ==> !KeyLess(KeyOf(s[j]), KeyOf(s[i]))
  }

  /** x placed after every element whose key is not greater than its own. */
  function Insert(s: seq<Flow>, x: Flow): (r: seq<Flow>)
    ensures |r| == |s| + 1
    ensures multiset(r) == multiset(s) + multiset{x}
  {
    if s == [] then [x]
    else if KeyLess(KeyOf(x), KeyOf(s[|s| - 1])) then
      assert s == s[..|s| - 1] + [s[|s| - 1]];
      Insert(s[..|s| - 1], x) + [s[|s| - 1]]
    else s + [x]
  }

  /** `sorted(flows, key=keyfunc)`: a stable sort, by insertion. */
  function SortByKey(s: seq<Flow>): (r: seq<Flow>)
    ensures |r| == |s| && multiset(r) == multiset(s)
  {
    if s == [] then []
    else
      assert s == s[..|s| - 1] + [s[|s| - 1]];
      Insert(SortByKey(s[..|s| - 1]), s[|s| - 1])
  }

  lemma {:induction false} InsertSorted(s: seq<Flow>, x: Flow)
    requires SortedByKey(s)
    ensures SortedByKey(Insert(s, x))
  {
    if s != [] && KeyLess(KeyOf(x), KeyOf(s[|s| - 1])) {
      var front, last := s[..|s| - 1], s[|s| - 1];
      InsertSorted(front, x);
      var r := Insert(front, x);
      forall i | 0 <= i < |r| ensures !KeyLess(KeyOf(last), KeyOf(r[i])) {
        assert r[i] in multiset(front) + multiset{x};
        if r[i] == x {
          KeyLessIrreflexive(KeyOf(x));
          if KeyLess(KeyOf(last), KeyOf(x)) { KeyLessTransitive(KeyOf(x), KeyOf(last), KeyOf(x)); }
        } else {
          assert r[i] in front;
        }
      }
    } else if s != [] {
      forall i | 0 <= i < |s| ensures !KeyLess(KeyOf(x), KeyOf(s[i])) {
        KeyLessTotal(KeyOf(s[i]), KeyOf(s[|s| - 1]));
        if KeyLess(KeyOf(x), KeyOf(s[i])) && KeyLess(KeyOf(s[i]), KeyOf(s[|s| - 1])) {
          KeyLessTransitive(KeyOf(x), KeyOf(s[i]), KeyOf(s[|s| - 1]));
        }
      }
    }
  }

  /** The sort orders the flows by key and keeps every one of them. */
  lemma {:induction false} SortSorted(s: seq<Flow>)
    ensures SortedByKey(SortByKey(s))
  {
    if s != [] {
      SortSorted(s[..|s| - 1]);
      InsertSorted(SortByKey(s[..|s| - 1]), s[|s| - 1]);
    }
  }

  lemma {:induction false} InsertTotal(s: seq<Flow>, x: Flow, c: string)
    ensures Total(Insert(s, x), c) == Total(s, c) + Total([x], c)
  {
    if s != [] && KeyLess(KeyOf(x), KeyOf(s[|s| - 1])) {
      var front, last := s[..|s| - 1], s[|s| - 1];
      InsertTotal(front, x, c);
      TotalAppend(Insert(front, x), [last], c);
      TotalAppend(front, [last], c);
      assert front + [last] == s;
    } else {
      TotalAppend(s, [x], c);
    }
  }

  lemma {:induction false} SortTotal(s: seq<Flow>, c: string)
    ensures Total(SortByKey(s), c) == Total(s, c)
  {
    if s != [] {
      var front, last := s[..|s| - 1], s[|s| - 1];
      assert SortByKey(s) == Insert(SortByKey(front), last);
      SortTotal(front, c);
      InsertTotal(SortByKey(front), last, c);
      assert Total(s, c) == Total(front, c) + Total([last], c) by {
        TotalAppend(front, [last], c);
        assert front + [last] == s;
      }
    }
  }

  /** The sum of the amounts. */
  function SumAmounts(g: seq<Flow>): int
  {
    if g == [] then 0 else SumAmounts(g[..|g| - 1]) + g[|g| - 1].amount
  }

  /**
   * `reduce(operator.add, g)` as written: the first flow alone is returned as
   * it is; otherwise each `+` must find equal payee, comment and currency,
   * and every sum after the first carries neither.
   */
  function ReduceAdd(g: seq<Flow>): (r: Result<Flow>)
    requires |g| > 0
    ensures r.Err? ==> r.error == AssertionError
  {
    if |g| == 1 then Ok(g[0])
    else
      match ReduceAdd(g[..|g| - 1])
      case Err(e) => Err(e)
      case Ok(a) => Add(a, g[|g| - 1])
  }

  /**
   * The sum of a run as `prepare` evidently means it: a single flow unchanged,
   * and otherwise the total amount in the run's currency with neither payee
   * nor comment.
   */
  function SumGroup(g: seq<Flow>): (f: Flow)
    requires |g| > 0
    ensures |g| == 1 ==> f == g[0]
    ensures |g| > 1 ==> f.amount == SumAmounts(g) && f.currency == g[0].currency && f.payee.None? && f.comment.None?
  {
    if |g| == 1 then g[0] else Flow(SumAmounts(g), g[0].currency, None, None)
  }

  /** Wherever the code as written succeeds, it computes the intended sum. */
  lemma {:induction false} ReduceAddAgrees(g: seq<Flow>)
    requires |g| > 0 && ReduceAdd(g).Ok?
    ensures ReduceAdd(g).value == SumGroup(g)
  {
    if |g| > 1 {
      var front := g[..|g| - 1];
      ReduceAddAgrees(front);
      if |front| == 1 {
        assert front[..0] == [];
        assert SumAmounts(front) == g[0].amount;
      }
    }
  }

  /** After the first `+` the payee and comment are gone, so a third flow that carries one makes `+` fail. */
  lemma {:induction false} ReduceAddFails(g: seq<Flow>)
    requires |g| >= 3 && (g[2].payee.Some? || g[2].comment.Some?)
    ensures ReduceAdd(g) == Err(AssertionError)
  {
    if |g| == 3 {
      var two := g[..2];
      assert two[..1] == [g[0]] && two[1] == g[1] && g[2] == g[|g| - 1];
      assert ReduceAdd(two) == Add(g[0], g[1]);
    } else {
      ReduceAddFails(g[..|g| - 1]);
    }
  }

  /** Each run summed as intended. */
  function Sums(r: seq<seq<Flow>>): (fs: seq<Flow>)
    requires forall i :: 0 <= i < |r| ==> |r[i]| > 0
    ensures |fs| == |r| && forall i :: 0 <= i < |r| ==> fs[i] == SumGroup(r[i])
  {
    seq(|r|, i requires 0 <= i < |r| => SumGroup(r[i]))
  }

  /** The flows of one account after `prepare`, with the intended sum. */
  function Collapse(fs: seq<Flow>): seq<Flow>
  {
    Sums(Runs(SortByKey(fs), KeyOf))
  }

  /** `[reduce(operator.add, g) for _, g in groupby(sorted(flows, key=keyfunc), keyfunc)]` as written. */
  function CollapseAsWritten(fs: seq<Flow>): (r: Result<seq<Flow>>)
    ensures r.Err? ==> r.error == AssertionError
  {
    ReduceRuns(Runs(SortByKey(fs), KeyOf))
  }

  function ReduceRuns(r: seq<seq<Flow>>): (fs: Result<seq<Flow>>)
    requires forall i :: 0 <= i < |r| ==> |r[i]| > 0
    ensures fs.Err? ==> fs.error == AssertionError
  {
    if r == [] then Ok([])
    else
      match ReduceRuns(r[..|r| - 1])
      case Err(e) => Err(e)
      case Ok(fs) =>
        match ReduceAdd(r[|r| - 1])
        case Err(e) => Err(e)
        case Ok(f) => Ok(fs + [f])
  }

  lemma {:induction false} ReduceRunsAgrees(r: seq<seq<Flow>>)
    requires forall i :: 0 <= i < |r| ==> |r[i]| > 0
    requires ReduceRuns(r).Ok?
    ensures ReduceRuns(r).value == Sums(r)
  {
    if r != [] {
      ReduceRunsAgrees(r[..|r| - 1]);
      ReduceAddAgrees(r[|r| - 1]);
    }
  }

  /** Wherever the collapse as written succeeds, it gives the intended collapse. */
  lemma CollapseAgrees(fs: seq<Flow>)
    requires CollapseAsWritten(fs).Ok?
    ensures CollapseAsWritten(fs).value == Collapse(fs)
  {
    ReduceRunsAgrees(Runs(SortByKey(fs), KeyOf));
  }

  /** A sequence already in key order is left as it is by the sort. */
  lemma {:induction false} SortKeepsSorted(s: seq<Flow>)
    requires SortedByKey(s)
    ensures SortByKey(s) == s
  {
    if s != [] {
      var front := s[..|s| - 1];
      SortKeepsSorted(front);
      assert front + [s[|s| - 1]] == s;
    }
  }

  lemma {:induction false} SumAmountsAppend(g: seq<Flow>, f: Flow)
    ensures SumAmounts(g + [f]) == SumAmounts(g) + f.amount
  {
    assert (g + [f])[..|g|] == g;
  }

  /** Three equal flows stay together through the sort and form one run. */
  lemma TripleRun(f: Flow)
    ensures Runs(SortByKey([f, f, f]), KeyOf) == [[f, f, f]]
  {
    KeyLessIrreflexive(KeyOf(f));
    SortKeepsSorted([f, f, f]);
    RunsOfEqualKeys([f, f, f], KeyOf, KeyOf(f));
  }

  /** Three equal flows that carry a payee or a comment make the code as written fail. */
  lemma CollapseCrash(f: Flow)
    requires f.payee.Some? || f.comment.Some?
    ensures CollapseAsWritten([f, f, f]) == Err(AssertionError)
  {
    var g := [f, f, f];
    TripleRun(f);
    var r := Runs(SortByKey(g), KeyOf);
    assert r == [g] && r[..0] == [] && r[0] == g;
    assert ReduceRuns(r[..0]) == Ok([]);
    ReduceAddFails(g);
  }

  /** The intended collapse books the sum of three equal flows without payee or comment. */
  lemma CollapseTriple(f: Flow)
    ensures Collapse([f, f, f]) == [Flow(3 * f.amount, f.currency, None, None)]
  {
    var g := [f, f, f];
    TripleRun(f);
    assert g[..2] == [f, f] && [f, f][..1] == [f] && [f][..0] == [];
    assert SumAmounts(g) == 3 * f.amount by {
      assert SumAmounts([f]) == f.amount;
      assert SumAmounts([f, f]) == 2 * f.amount;
    }
    assert Sums([g]) == [SumGroup(g)];
  }

  /**
   * Three postings of one split to the same category under a parent with a
   * payee: the code as written fails, the intended collapse books their sum.
   */
  lemma CollapseCrashExample()
    ensures var f := Flow(-100, "EUR", Some("Shop"), None);
      && CollapseAsWritten([f, f, f]) == Err(AssertionError)
      && Collapse([f, f, f]) == [Flow(-300, "EUR", None, None)]
  {
    CollapseCrash(Flow(-100, "EUR", Some("Shop"), None));
    CollapseTriple(Flow(-100, "EUR", Some("Shop"), None));
  }

  lemma PairSorted(a: Flow, b: Flow)
    requires KeyLess(KeyOf(a), KeyOf(b))
    ensures SortByKey([a, b, b]) == [a, b, b]
  {
    var s := [a, b, b];
    KeyLessIrreflexive(KeyOf(b));
    KeyLessIrreflexive(KeyOf(a));
    if KeyLess(KeyOf(b), KeyOf(a)) { KeyLessTransitive(KeyOf(a), KeyOf(b), KeyOf(a)); }
    forall i, j | 0 <= i < j < |s| ensures !KeyLess(KeyOf(s[j]), KeyOf(s[i])) {
      assert s[j] == b;
    }
    SortKeepsSorted(s);
  }

  /** a before b, b twice: the sort keeps the order and the runs are [a] and [b, b]. */
  lemma PairRuns(a: Flow, b: Flow)
    requires KeyLess(KeyOf(a), KeyOf(b))
    ensures Runs(SortByKey([a, b, b]), KeyOf) == [[a], [b, b]]
  {
    PairSorted(a, b);
    KeyLessIrreflexive(KeyOf(a));
    assert KeyOf(a) != KeyOf(b);
    RunsSingleThenPair(a, b, KeyOf);
  }

  /**
   * When a flow without payee or comment sorts before two equal flows with a
   * payee and the same sign of sum, the collapse leaves two flows with one key.
   */
  lemma CollapseRepeats(a: Flow, b: Flow)
    requires KeyLess(KeyOf(a), KeyOf(b)) && b.payee.Some?
    requires a.payee.None? && a.comment.None? && a.currency == b.currency && (a.amount > 0 <==> b.amount > 0)
    ensures var r := Collapse([a, b, b]); |r| == 2 && KeyOf(r[0]) == KeyOf(r[1])
  {
    PairRuns(a, b);
    SumAmountsAppend([b], b);
    assert [b] + [b] == [b, b] && [b][..0] == [];
  }

  /**
   * A sum loses its payee, so it can end up beside a flow that never had one:
   * after the collapse two flows of the account may share a key.
   */
  lemma CollapseMayRepeatKey()
    ensures var a, b := Flow(-100, "EUR", None, None), Flow(-200, "EUR", Some("Shop"), None);
      var r := Collapse([a, b, b]);
      |r| == 2 && KeyOf(r[0]) == KeyOf(r[1])
  {
    var a, b := Flow(-100, "EUR", None, None), Flow(-200, "EUR", Some("Shop"), None);
    assert StrLess("None", "Shop");
    CollapseRepeats(a, b);
  }

  /** In a sequence of flows of one currency, that currency's total is the sum of the amounts. */
  lemma {:induction false} TotalUniform(g: seq<Flow>, cur: string, c: string)
    requires forall i :: 0 <= i < |g| ==> g[i].currency == cur
    ensures Total(g, c) == if cur == c then SumAmounts(g) else 0
  {
    if g != [] {
      var front, last := g[..|g| - 1], g[|g| - 1];
      TotalUniform(front, cur, c);
      TotalAppend(front, [last], c);
      TotalOne(last, c);
      assert front + [last] == g;
    }
  }

  /** The sum of a run of one currency books the run's total in every currency. */
  lemma SumGroupTotal(g: seq<Flow>, c: string)
    requires |g| > 0 && forall i :: 0 <= i < |g| ==> g[i].currency == g[0].currency
    ensures Total([SumGroup(g)], c) == Total(g, c)
  {
    TotalOne(SumGroup(g), c);
    if |g| > 1 {
      TotalUniform(g, g[0].currency, c);
    } else {
      assert g == [g[0]];
    }
  }

  /** Summing runs of one key each keeps every currency's total. */
  lemma {:induction false} SumsTotal(r: seq<seq<Flow>>, c: string)
    requires forall i :: 0 <= i < |r| ==> |r[i]| > 0
    requires Uniform(r, KeyOf)
    ensures Total(Sums(r), c) == Total(Flatten(r), c)
  {
    if r != [] {
      var front, last := r[..|r| - 1], r[|r| - 1];
      SumsTotal(front, c);
      assert Sums(r) == Sums(front) + [SumGroup(last)];
      TotalAppend(Sums(front), [SumGroup(last)], c);
      TotalAppend(Flatten(front), last, c);
      assert forall j :: 0 <= j < |last| ==> KeyOf(last[j]) == KeyOf(last[0]);
      SumGroupTotal(last, c);
    }
  }

  /** The collapse of an account's flows keeps its total in every currency. */
  lemma CollapseTotal(fs: seq<Flow>, c: string)
    ensures Total(Collapse(fs), c) == Total(fs, c)
  {
    var sorted := SortByKey(fs);
    SortTotal(fs, c);
    RunsUniform(sorted, KeyOf);
    RunsFlatten(sorted, KeyOf);
    SumsTotal(Runs(sorted, KeyOf), c);
  }
}
