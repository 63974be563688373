/**
 * A ledger entry: when it happened, an optional payee and comment, and the
 * flows booked on each account, accounts in the order they were first
 * assigned.
 */
module Entries {
  import opened Wrappers
  import opened Assoc
  import opened Money
  import opened Clock

  datatype Entry = Entry(when: Timestamp, payee: Option<string>, comment: Option<string>, flow: Assoc<string, seq<Flow>>)

  /** No entry is dated before one that precedes it. */
  predicate InOrder(es: seq<Entry>)
  {
    forall i, j :: 0 <= i < j < |es| ==> !Before(es[j].when, es[i].when)
  }

  /** The sum of the amounts of the flows in currency c. */
  function Total(fs: seq<Flow>, c: string): int
  {
    if fs == [] then 0 else (if fs[0].currency == c then fs[0].amount else 0) + Total(fs[1..], c)
  }

  lemma {:induction false} TotalAppend(a: seq<Flow>, b: seq<Flow>, c: string)
    ensures Total(a + b, c) == Total(a, c) + Total(b, c)
  {
    if a == [] {
      assert a + b == b;
    } else {
      assert (a + b)[1..] == a[1..] + b;
      TotalAppend(a[1..], b, c);
    }
  }

  /** The sum over all accounts of the amounts in currency c. */
  function FlowTotal(flow: Assoc<string, seq<Flow>>, c: string): int
  {
    if flow == [] then 0 else Total(flow[0].1, c) + FlowTotal(flow[1..], c)
  }

  /** Every currency sums to zero over the entry's postings. */
  ghost predicate Balanced(flow: Assoc<string, seq<Flow>>)
  {
    forall c :: FlowTotal(flow, c) == 0
  }

  /**
   * `{src: [Flow(amount, cur, None, None)], dst: [Flow(-amount, cur, payee, comment)]}`:
   * two accounts, or one when src and dst are the same name, the later value winning.
   */
  function Postings(src: string, dst: string, amount: int, cur: string, payee: Option<string>, comment: Option<string>): (flow: Assoc<string, seq<Flow>>)
    ensures src != dst ==> flow == [(src, [Flow(amount, cur, None, None)]), (dst, [Flow(-amount, cur, payee, comment)])]
    ensures src == dst ==> flow == [(src, [Flow(-amount, cur, payee, comment)])]
  {
    Put(Put([], src, [Flow(amount, cur, None, None)]), dst, [Flow(-amount, cur, payee, comment)])
  }

  lemma TotalOne(f: Flow, c: string)
    ensures Total([f], c) == if f.currency == c then f.amount else 0
  {
    assert [f][1..] == [];
  }

  /** A transaction between two different accounts balances. */
  lemma PostingsBalanced(src: string, dst: string, amount: int, cur: string, payee: Option<string>, comment: Option<string>)
    requires src != dst
    ensures Balanced(Postings(src, dst, amount, cur, payee, comment))
  {
    var a, b := Flow(amount, cur, None, None), Flow(-amount, cur, payee, comment);
    var flow := Postings(src, dst, amount, cur, payee, comment);
    assert flow == [(src, [a]), (dst, [b])];
    forall c ensures FlowTotal(flow, c) == 0 {
      TotalOne(a, c);
      TotalOne(b, c);
      assert flow[1..] == [(dst, [b])] && flow[1..][1..] == [];
      assert FlowTotal(flow[1..], c) == Total([b], c);
    }
  }

  /** Booked on one account only, the transaction leaves just the negated amount. */
  lemma PostingsSameAccount(src: string, amount: int, cur: string, payee: Option<string>, comment: Option<string>)
    ensures FlowTotal(Postings(src, src, amount, cur, payee, comment), cur) == -amount
  {
    var b := Flow(-amount, cur, payee, comment);
    var flow := Postings(src, src, amount, cur, payee, comment);
    assert flow == [(src, [b])] && flow[1..] == [];
    TotalOne(b, cur);
  }
}
