/**
 * `Entry.render`: the text of one ledger transaction. A header line with the
 * date, the payee and the time, an optional note line, then for every account
 * in the entry's order and every flow booked on it a posting line (account
 * left-aligned in 26 columns, amount right-aligned in 16) followed by the
 * flow's payee and note lines. The lines are joined with line breaks and one
 * more ends the block.
 */
module Render {
  import opened Wrappers
  import opened Text
  import opened Assoc
  import opened Money
  import opened Clock
  import opened Entries

  /** The header: the date, " *", the payee when it is truthy, and the time annotation. */
  function Header(when: Timestamp, payee: Option<string>, year: Option<nat>): string
  {
    DateText(when, year) + " *" + (if Truthy(payee) then " " + payee.value else "") + "  ; time: " + TimeText(when)
  }

  function NoteLines(comment: Option<string>): seq<string>
  {
    if Truthy(comment) then ["    ; note: " + comment.value] else []
  }

  function PayeeLines(payee: Option<string>): seq<string>
  {
    if Truthy(payee) then ["    ; payee: " + payee.value] else []
  }

  /** `'    {:<26}  {:>16}'.format(acc, amount)`. */
  function Posting(acc: string, amount: string): string
  {
    "    " + PadRight(acc, 26) + "  " + PadLeft(amount, 16)
  }

  /** The account fills at least 26 columns and the amount at least 16, right-aligned; nothing is cut. */
  lemma PostingLayout(acc: string, amount: string)
    ensures var line := Posting(acc, amount); var w := 6 + Max(|acc|, 26);
      && |line| == w + Max(|amount|, 16)
      && line[..4] == "    " && line[4..4 + |acc|] == acc
      && (forall i :: 4 + |acc| <= i < w ==> line[i] == ' ')
      && (forall i :: w <= i < |line| - |amount| ==> line[i] == ' ')
      && line[|line| - |amount|..] == amount
  {
    PostingLeft(acc, amount);
    PostingRight(acc, amount);
  }

  lemma PostingLeft(acc: string, amount: string)
    ensures var line := Posting(acc, amount); var w := 6 + Max(|acc|, 26);
      && line[..4] == "    " && line[4..4 + |acc|] == acc
      && (forall i :: 4 + |acc| <= i < w ==> line[i] == ' ')
  {
    var l := PadRight(acc, 26);
    assert forall i :: |acc| <= i < |l| ==> l[i] == ' ' by {
      forall i | |acc| <= i < |l| ensures l[i] == ' ' {
        assert l[i] == l[|acc|..][i - |acc|];
      }
    }
    LeftAligned("    ", l, "  ", PadLeft(amount, 16), acc, ' ');
  }

  /** A prefix p, then acc padded with `fill` to l, then a run q of `fill`, then anything. */
  lemma LeftAligned<T>(p: seq<T>, l: seq<T>, q: seq<T>, r: seq<T>, acc: seq<T>, fill: T)
    requires |acc| <= |l| && l[..|acc|] == acc
    requires forall i :: |acc| <= i < |l| ==> l[i] == fill
    requires forall i :: 0 <= i < |q| ==> q[i] == fill
    ensures var line := p + l + q + r;
      && line[..|p|] == p && line[|p|..|p| + |acc|] == acc
      && (forall i :: |p| + |acc| <= i < |p| + |l| + |q| ==> line[i] == fill)
  {
    var line := p + l + q + r;
    Regroup4(p, l, q, r);
    Segments(p, l, q + r);
    assert line[|p|..|p| + |acc|] == acc by {
      forall i | 0 <= i < |acc| ensures line[|p|..|p| + |acc|][i] == acc[i] {
        assert acc[i] == l[..|acc|][i];
      }
    }
  }

  /** Where each of three joined pieces lies in the whole. */
  lemma Segments<T>(a: seq<T>, b: seq<T>, c: seq<T>)
    ensures var s := a + b + c;
      && |s| == |a| + |b| + |c| && s[..|a|] == a
      && (forall i :: |a| <= i < |a| + |b| ==> s[i] == b[i - |a|])
      && (forall i :: |a| + |b| <= i < |s| ==> s[i] == c[i - |a| - |b|])
  {
  }

  lemma Regroup4<T>(a: seq<T>, b: seq<T>, c: seq<T>, d: seq<T>)
    ensures a + b + c + d == a + b + (c + d)
  {
  }

  lemma PostingRight(acc: string, amount: string)
    ensures var line := Posting(acc, amount); var w := 6 + Max(|acc|, 26);
      && |line| == w + Max(|amount|, 16)
      && (forall i :: w <= i < |line| - |amount| ==> line[i] == ' ')
      && line[|line| - |amount|..] == amount
  {
    var r := PadLeft(amount, 16);
    var line := Posting(acc, amount);
    var w := 6 + Max(|acc|, 26);
    assert line == ("    " + PadRight(acc, 26) + "  ") + r;
    assert line[w..] == r;
    forall i | w <= i < |line| - |amount| ensures line[i] == ' ' {
      assert line[i] == r[i - w];
    }
    assert line[|line| - |amount|..] == r[|r| - |amount|..];
  }

  /** The lines of one flow: its posting, then its payee and its note when they are truthy. */
  function FlowLines(acc: string, f: Flow): seq<string>
  {
    [Posting(acc, Format(f.amount, f.currency))] + PayeeLines(f.payee) + NoteLines(f.comment)
  }

  /** The lines of the flows booked on one account, in order. */
  function AccountLines(acc: string, fs: seq<Flow>): seq<string>
  {
    if fs == [] then [] else AccountLines(acc, fs[..|fs| - 1]) + FlowLines(acc, fs[|fs| - 1])
  }

  /** The lines of every account, in the order of the entry's `flow` dictionary. */
  function PostingLines(flow: Assoc<string, seq<Flow>>): seq<string>
  {
    if flow == [] then [] else PostingLines(flow[..|flow| - 1]) + AccountLines(flow[|flow| - 1].0, flow[|flow| - 1].1)
  }

  function Lines(e: Entry, year: Option<nat>): (ls: seq<string>)
    ensures |ls| > 0 && ls[0] == Header(e.when, e.payee, year)
  {
    [Header(e.when, e.payee, year)] + NoteLines(e.comment) + PostingLines(e.flow)
  }

  /** What `entry.render(year)` returns. */
  function Rendered(e: Entry, year: Option<nat>): string
  {
    Join("\n", Lines(e, year)) + "\n"
  }

  lemma AccountLinesStep(block: seq<string>, acc: string, fs: seq<Flow>, j: int)
    requires 0 <= j < |fs|
    ensures block + AccountLines(acc, fs[..j + 1]) == (block + AccountLines(acc, fs[..j])) + FlowLines(acc, fs[j])
  {
    assert fs[..j + 1][..j] == fs[..j];
  }

  lemma PostingLinesStep(head: seq<string>, flow: Assoc<string, seq<Flow>>, i: int)
    requires 0 <= i < |flow|
    ensures head + PostingLines(flow[..i + 1]) == (head + PostingLines(flow[..i])) + AccountLines(flow[i].0, flow[i].1)
  {
    assert flow[..i + 1][..i] == flow[..i];
  }

  lemma FlowLinesAfter(before: seq<string>, acc: string, f: Flow)
    ensures before + FlowLines(acc, f) == before + [Posting(acc, Format(f.amount, f.currency))] + PayeeLines(f.payee) + NoteLines(f.comment)
  {
  }

  /** One turn of the inner loop of `Entry.render`: a flow's posting line, then its payee and its note. */
  method AppendFlow(block: seq<string>, acc: string, flow: Flow) returns (out: seq<string>)
    ensures out == block + FlowLines(acc, flow)
  {
    var amount := FormatText(flow.amount, flow.currency);
    var line := "    " + PadRight(acc, 26) + "  " + PadLeft(amount, 16);
    out := block + [line];
    ghost var posted := out;
    if Truthy(flow.payee) {
      out := out + ["    ; payee: " + flow.payee.value];
    }
    assert out == posted + PayeeLines(flow.payee);
    ghost var payeed := out;
    if Truthy(flow.comment) {
      out := out + ["    ; note: " + flow.comment.value];
    }
    assert out == payeed + NoteLines(flow.comment);
    FlowLinesAfter(block, acc, flow);
  }

  /** The inner loop of `Entry.render`: every flow booked on `acc`, in order. */
  method AppendFlows(block: seq<string>, acc: string, flows: seq<Flow>) returns (out: seq<string>)
    ensures out == block + AccountLines(acc, flows)
  {
    out := block;
    for j := 0 to |flows|
      invariant out == block + AccountLines(acc, flows[..j])
    {
      AccountLinesStep(block, acc, flows, j);
      out := AppendFlow(out, acc, flows[j]);
    }
    assert flows[..|flows|] == flows;
  }

  /** The header as `Entry.render` assembles it, piece by piece. */
  method HeaderText(when: Timestamp, payee: Option<string>, year: Option<nat>) returns (header: string)
    ensures header == Header(when, payee, year)
  {
    var date := DateText(when, year);
    header := date + " *";
    if Truthy(payee) {
      header := header + " " + payee.value;
    }
    header := header + "  ; time: " + TimeText(when);
  }

  /** `Entry.render`: the header, the entry's note, then the lines of every account in order. */
  method RenderEntry(e: Entry, year: Option<nat>) returns (s: string)
    ensures s == Rendered(e, year)
  {
    var block: seq<string> := [];
    var header := HeaderText(e.when, e.payee, year);
    block := block + [header];
    if Truthy(e.comment) {
      block := block + ["    ; note: " + e.comment.value];
    }
    ghost var head := block;
    assert head == [Header(e.when, e.payee, year)] + NoteLines(e.comment);
    for i := 0 to |e.flow|
      invariant block == head + PostingLines(e.flow[..i])
    {
      var (acc, flows) := e.flow[i];
      PostingLinesStep(head, e.flow, i);
      block := AppendFlows(block, acc, flows);
    }
    assert e.flow[..|e.flow|] == e.flow;
    s := Join("\n", block) + "\n";
  }

  /** The block starts with the header line. */
  lemma RenderedStarts(e: Entry, year: Option<nat>)
    ensures var h := Header(e.when, e.payee, year);
      |h| <= |Rendered(e, year)| && Rendered(e, year)[..|h|] == h
  {
    JoinStarts("\n", Lines(e, year));
  }

  /**
   * Printed under the year it belongs to, a block starts with month and day
   * alone; under any other year (or none) with the full year in front.
   */
  lemma RenderedDate(e: Entry, year: Option<nat>)
    requires WellFormed(e.when)
    ensures var r := Rendered(e, year); var d := DateText(e.when, year);
      && |d| + 2 <= |r| && r[..|d| + 2] == d + " *"
      && (year == Some(e.when.year) ==> d == MonthDay(e.when))
      && (year != Some(e.when.year) ==>
            |d| > 6 && d[|d| - 5..] == MonthDay(e.when) && AllDigits(d[..|d| - 6]) && ParseNat(d[..|d| - 6]) == e.when.year)
  {
    RenderedStarts(e, year);
    HeaderStarts(e.when, e.payee, year);
    var h, r := Header(e.when, e.payee, year), Rendered(e, year);
    var d := DateText(e.when, year);
    assert r[..|d| + 2] == r[..|h|][..|d| + 2];
  }

  lemma HeaderStarts(when: Timestamp, payee: Option<string>, year: Option<nat>)
    ensures var d := DateText(when, year); var h := Header(when, payee, year);
      |d| + 2 <= |h| && h[..|d| + 2] == d + " *"
  {
    var d := DateText(when, year);
    var rest := (if Truthy(payee) then " " + payee.value else "") + "  ; time: " + TimeText(when);
    assert Header(when, payee, year) == (d + " *") + rest;
  }

  /** The header ends with the time of day. */
  lemma HeaderTime(when: Timestamp, payee: Option<string>, year: Option<nat>)
    ensures var h := Header(when, payee, year); var t := "  ; time: " + TimeText(when);
      |t| <= |h| && h[|h| - |t|..] == t
  {
  }

  /** No text of the entry holds a line break. */
  predicate NoBreaks(e: Entry)
  {
    && (e.payee.Some? ==> '\n' !in e.payee.value)
    && (e.comment.Some? ==> '\n' !in e.comment.value)
    && forall k :: 0 <= k < |e.flow| ==> '\n' !in e.flow[k].0 && FlowsNoBreaks(e.flow[k].1)
  }

  predicate FlowsNoBreaks(fs: seq<Flow>)
  {
    forall j :: 0 <= j < |fs| ==>
      && '\n' !in fs[j].currency
      && (fs[j].payee.Some? ==> '\n' !in fs[j].payee.value)
      && (fs[j].comment.Some? ==> '\n' !in fs[j].comment.value)
  }

  predicate LinesNoBreaks(ls: seq<string>)
  {
    forall i :: 0 <= i < |ls| ==> '\n' !in ls[i]
  }

  lemma PostingNoBreak(acc: string, amount: string)
    requires '\n' !in acc && '\n' !in amount
    ensures '\n' !in Posting(acc, amount)
  {
    var line := Posting(acc, amount);
    PostingLayout(acc, amount);
    forall i | 0 <= i < |line| ensures line[i] != '\n' {
      if 4 <= i < 4 + |acc| {
        assert line[i] == line[4..4 + |acc|][i - 4];
      } else if |line| - |amount| <= i {
        assert line[i] == line[|line| - |amount|..][i - (|line| - |amount|)];
      }
    }
  }

  lemma LinesNoBreaksAppend(a: seq<string>, b: seq<string>)
    requires LinesNoBreaks(a) && LinesNoBreaks(b)
    ensures LinesNoBreaks(a + b)
  {
  }

  lemma NoBreakAfter(prefix: string, s: string)
    requires '\n' !in prefix && '\n' !in s
    ensures '\n' !in prefix + s
  {
  }

  lemma FlowLinesNoBreaks(acc: string, f: Flow)
    requires '\n' !in acc && FlowsNoBreaks([f])
    ensures LinesNoBreaks(FlowLines(acc, f))
  {
    assert [f][0] == f;
    var p := Posting(acc, Format(f.amount, f.currency));
    assert '\n' !in p by {
      FormatNoBreak(f.amount, f.currency);
      PostingNoBreak(acc, Format(f.amount, f.currency));
    }
    assert LinesNoBreaks(PayeeLines(f.payee)) by {
      if Truthy(f.payee) {
        NoBreakAfter("    ; payee: ", f.payee.value);
      }
    }
    assert LinesNoBreaks(NoteLines(f.comment)) by {
      if Truthy(f.comment) {
        NoBreakAfter("    ; note: ", f.comment.value);
      }
    }
    LinesNoBreaksAppend([p], PayeeLines(f.payee));
    LinesNoBreaksAppend([p] + PayeeLines(f.payee), NoteLines(f.comment));
  }

  lemma {:induction false} AccountLinesNoBreaks(acc: string, fs: seq<Flow>)
    requires '\n' !in acc && FlowsNoBreaks(fs)
    ensures LinesNoBreaks(AccountLines(acc, fs))
  {
    if fs != [] {
      var f := fs[|fs| - 1];
      AccountLinesNoBreaks(acc, fs[..|fs| - 1]);
      FlowLinesNoBreaks(acc, f);
      LinesNoBreaksAppend(AccountLines(acc, fs[..|fs| - 1]), FlowLines(acc, f));
    }
  }

  lemma {:induction false} PostingLinesNoBreaks(flow: Assoc<string, seq<Flow>>)
    requires forall k :: 0 <= k < |flow| ==> '\n' !in flow[k].0 && FlowsNoBreaks(flow[k].1)
    ensures LinesNoBreaks(PostingLines(flow))
  {
    if flow != [] {
      PostingLinesNoBreaks(flow[..|flow| - 1]);
      AccountLinesNoBreaks(flow[|flow| - 1].0, flow[|flow| - 1].1);
    }
  }

  lemma DateNoBreak(when: Timestamp, year: Option<nat>)
    requires WellFormed(when)
    ensures '\n' !in DateText(when, year) && '\n' !in TimeText(when)
  {
    assert '\n' !in MonthDay(when) by {
      DigitsAround(MonthDay(when), 2);
    }
    assert '\n' !in TimeText(when) by {
      DigitsAround(TimeText(when), 2);
    }
    if year != Some(when.year) {
      var d := DateText(when, year);
      assert '\n' !in d by {
        DigitsNoBreak(d[..|d| - 6]);
        Split3(d, |d| - 6);
      }
    }
  }

  lemma Split3<T>(s: seq<T>, k: nat)
    requires k < |s|
    ensures s == s[..k] + [s[k]] + s[k + 1..]
  {
  }

  /** Digits on both sides of one character that is not a line break. */
  lemma DigitsAround(s: string, k: nat)
    requires k < |s| && AllDigits(s[..k]) && AllDigits(s[k + 1..]) && s[k] != '\n'
    ensures '\n' !in s
  {
    forall i | 0 <= i < |s| ensures s[i] != '\n' {
      if i < k {
        assert s[i] == s[..k][i];
      } else if i > k {
        assert s[i] == s[k + 1..][i - k - 1];
      }
    }
  }

  lemma HeaderNoBreak(when: Timestamp, payee: Option<string>, year: Option<nat>)
    requires WellFormed(when) && (payee.Some? ==> '\n' !in payee.value)
    ensures '\n' !in Header(when, payee, year)
  {
    DateNoBreak(when, year);
    var d, t := DateText(when, year), TimeText(when);
    var p := if Truthy(payee) then " " + payee.value else "";
    assert '\n' !in p;
    NoBreakAfter(d, " *");
    NoBreakAfter(d + " *", p);
    NoBreakAfter(d + " *" + p, "  ; time: ");
    NoBreakAfter(d + " *" + p + "  ; time: ", t);
  }

  lemma NoteLinesNoBreaks(comment: Option<string>)
    requires comment.Some? ==> '\n' !in comment.value
    ensures LinesNoBreaks(NoteLines(comment))
  {
    if Truthy(comment) {
      NoBreakAfter("    ; note: ", comment.value);
    }
  }

  /**
   * The block is its lines: split at its line breaks, the text gives back the
   * header, the notes and the postings, and an empty piece after the final
   * break.
   */
  lemma RenderedLines(e: Entry, year: Option<nat>)
    requires WellFormed(e.when) && NoBreaks(e)
    ensures SplitLines(Rendered(e, year)) == Lines(e, year) + [""]
  {
    var ls := Lines(e, year);
    assert LinesNoBreaks(ls) by {
      var h := [Header(e.when, e.payee, year)];
      HeaderNoBreak(e.when, e.payee, year);
      NoteLinesNoBreaks(e.comment);
      PostingLinesNoBreaks(e.flow);
      LinesNoBreaksAppend(h, NoteLines(e.comment));
      LinesNoBreaksAppend(h + NoteLines(e.comment), PostingLines(e.flow));
    }
    SplitJoin(ls);
    SplitBreak(Join("\n", ls));
  }

  /** Every flow booked on the account has its posting line among the account's lines. */
  lemma {:induction false} AccountLinesCover(acc: string, fs: seq<Flow>, j: int)
    requires 0 <= j < |fs|
    ensures Posting(acc, Format(fs[j].amount, fs[j].currency)) in AccountLines(acc, fs)
  {
    if j < |fs| - 1 {
      AccountLinesCover(acc, fs[..|fs| - 1], j);
    }
  }

  /** Every flow of the entry, on every account, has its posting line in the block. */
  lemma {:induction false} PostingLinesCover(flow: Assoc<string, seq<Flow>>, k: int, j: int)
    requires 0 <= k < |flow| && 0 <= j < |flow[k].1|
    ensures Posting(flow[k].0, Format(flow[k].1[j].amount, flow[k].1[j].currency)) in PostingLines(flow)
  {
    if k < |flow| - 1 {
      PostingLinesCover(flow[..|flow| - 1], k, j);
    } else {
      AccountLinesCover(flow[k].0, flow[k].1, j);
    }
  }

  /** There are as many posting lines as flows, and no more lines than three per flow. */
  lemma {:induction false} AccountLinesCount(acc: string, fs: seq<Flow>)
    ensures |fs| <= |AccountLines(acc, fs)| <= 3 * |fs|
  {
    if fs != [] {
      AccountLinesCount(acc, fs[..|fs| - 1]);
    }
  }
}
