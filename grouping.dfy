/**
 * `itertools.groupby` without a prior sort: a sequence cut into maximal runs
 * of neighbours with equal keys, in order.
 */
module Grouping {

  /** The runs of s, each a maximal stretch of neighbours whose keys are equal. */
  function Runs<T, K(==)>(s: seq<T>, key: T -> K): (r: seq<seq<T>>)
    ensures forall i :: 0 <= i < |r| ==> |r[i]| > 0
    ensures |r| <= |s|
    ensures s == [] <==> r == []
  {
    if s == [] then []
    else
      var r := Runs(s[..|s| - 1], key);
      var x := s[|s| - 1];
      if |r| > 0 && key(r[|r| - 1][0]) == key(x) then r[..|r| - 1] + [r[|r| - 1] + [x]]
      else r + [[x]]
  }

  /** The runs laid end to end. */
  function Flatten<T>(r: seq<seq<T>>): seq<T>
  {
    if r == [] then [] else Flatten(r[..|r| - 1]) + r[|r| - 1]
  }

  /** Every element of a run has the run's key. */
  ghost predicate Uniform<T, K>(r: seq<seq<T>>, key: T -> K)
  {
    forall i, j :: 0 <= i < |r| && 0 <= j < |r[i]| ==> key(r[i][j]) == key(r[i][0])
  }

  /** Neighbouring runs have different keys. */
  ghost predicate Maximal<T, K>(r: seq<seq<T>>, key: T -> K)
    requires forall i :: 0 <= i < |r| ==> |r[i]| > 0
  {
    forall i :: 0 < i < |r| ==> key(r[i - 1][0]) != key(r[i][0])
  }

  /** Laid end to end, the runs give the sequence back. */
  lemma {:induction false} RunsFlatten<T, K>(s: seq<T>, key: T -> K)
    ensures Flatten(Runs(s, key)) == s
  {
    if s != [] {
      var front, x := s[..|s| - 1], s[|s| - 1];
      var r := Runs(front, key);
      RunsFlatten(front, key);
      if |r| > 0 && key(r[|r| - 1][0]) == key(x) {
        FlattenJoin(r, x);
      } else {
        FlattenSnoc(r, [x]);
      }
      assert front + [x] == s;
    }
  }

  /** Extending the last run extends the flattened sequence. */
  lemma FlattenJoin<T>(r: seq<seq<T>>, x: T)
    requires |r| > 0
    ensures Flatten(r[..|r| - 1] + [r[|r| - 1] + [x]]) == Flatten(r) + [x]
  {
    var init, last := r[..|r| - 1], r[|r| - 1];
    assert Flatten(r) == Flatten(init) + last;
    FlattenSnoc(init, last + [x]);
    AppendAssoc(Flatten(init), last, [x]);
  }

  lemma AppendAssoc<T>(a: seq<T>, b: seq<T>, c: seq<T>)
    ensures a + (b + c) == a + b + c
  {
  }

  lemma FlattenSnoc<T>(r: seq<seq<T>>, x: seq<T>)
    ensures Flatten(r + [x]) == Flatten(r) + x
  {
    assert (r + [x])[..|r|] == r;
  }

  /** Within a run every key equals the key of its first element. */
  lemma {:induction false} RunsUniform<T, K>(s: seq<T>, key: T -> K)
    ensures Uniform(Runs(s, key), key)
  {
    if s != [] {
      var front, x := s[..|s| - 1], s[|s| - 1];
      RunsUniform(front, key);
    }
  }

  /** Neighbouring runs have different keys: each run is as long as it can be. */
  lemma {:induction false} RunsMaximal<T, K>(s: seq<T>, key: T -> K)
    ensures Maximal(Runs(s, key), key)
  {
    if s != [] {
      var front, x := s[..|s| - 1], s[|s| - 1];
      RunsMaximal(front, key);
    }
  }

  /** When no two neighbours share a key, every element is a run of its own. */
  lemma {:induction false} RunsOfOne<T, K>(s: seq<T>, key: T -> K)
    requires forall i :: 0 < i < |s| ==> key(s[i - 1]) != key(s[i])
    ensures |Runs(s, key)| == |s|
    ensures forall i :: 0 <= i < |s| ==> Runs(s, key)[i] == [s[i]]
  {
    if s != [] {
      var front := s[..|s| - 1];
      RunsOfOne(front, key);
      var r := Runs(front, key);
      if |r| > 0 {
        assert r[|r| - 1][0] == front[|front| - 1];
      }
    }
  }

  /** A sequence whose keys are all k is a single run. */
  lemma {:induction false} RunsOfEqualKeys<T, K>(s: seq<T>, key: T -> K, k: K)
    requires |s| > 0 && forall i :: 0 <= i < |s| ==> key(s[i]) == k
    ensures Runs(s, key) == [s]
  {
    var front, x := s[..|s| - 1], s[|s| - 1];
    if front == [] {
      assert s == [x];
    } else {
      RunsOfEqualKeys(front, key, k);
      assert front[0] == s[0];
      assert front + [x] == s;
    }
  }

  /** With keys a != b, the runs of [a, b, b] are [a] and [b, b]. */
  lemma RunsSingleThenPair<T, K>(a: T, b: T, key: T -> K)
    requires key(a) != key(b)
    ensures Runs([a, b, b], key) == [[a], [b, b]]
  {
    var r1 := Runs([a], key);
    assert r1 == [[a]] by {
      assert [a][..0] == [];
    }
    RunsAppendNew([a], b, key);
    assert [a] + [b] == [a, b];
    var r2 := r1 + [[b]];
    RunsAppendJoin([a, b], b, key);
    assert [a, b] + [b] == [a, b, b];
    assert r2[..1] == [[a]] && r2[1] + [b] == [b, b];
  }

  /** An element whose key differs from the last run's starts a run of its own. */
  lemma RunsAppendNew<T, K>(s: seq<T>, x: T, key: T -> K)
    requires var r := Runs(s, key); |r| > 0 && key(r[|r| - 1][0]) != key(x)
    ensures Runs(s + [x], key) == Runs(s, key) + [[x]]
  {
    assert (s + [x])[..|s|] == s;
  }

  /** An element with the last run's key extends that run. */
  lemma RunsAppendJoin<T, K>(s: seq<T>, x: T, key: T -> K)
    requires var r := Runs(s, key); |r| > 0 && key(r[|r| - 1][0]) == key(x)
    ensures var r := Runs(s, key); Runs(s + [x], key) == r[..|r| - 1] + [r[|r| - 1] + [x]]
  {
    assert (s + [x])[..|s|] == s;
  }

  /** An element whose key differs from the last run's closes that run: the runs so far stay a prefix, and more follow. */
  lemma RunsClosed<T, K>(s: seq<T>, i: int, key: T -> K)
    requires 0 < i < |s|
    requires var a := Runs(s[..i], key); |a| > 0 && key(s[i]) != key(a[|a| - 1][0])
    ensures var a, r := Runs(s[..i], key), Runs(s, key); |a| < |r| && r[..|a|] == a
  {
    var a, b, r := Runs(s[..i], key), Runs(s[..i + 1], key), Runs(s, key);
    assert b == a + [[s[i]]] by {
      assert s[..i + 1] == s[..i] + [s[i]];
      RunsAppendNew(s[..i], s[i], key);
    }
    var n := |a|;
    assert |b| == n + 1 && b[..n] == a;
    assert n < |r| && r[..n] == b[..n] by {
      RunsPrefix(s, i + 1, key);
    }
  }

  /** One more element keeps every run but the last one. */
  lemma RunsStep<T, K>(t: seq<T>, x: T, key: T -> K)
    requires |t| > 0
    ensures var a, b := Runs(t, key), Runs(t + [x], key); |a| <= |b| && b[..|a| - 1] == a[..|a| - 1]
  {
    var a, b := Runs(t, key), Runs(t + [x], key);
    var n := |a| - 1;
    var init := a[..n];
    if key(a[|a| - 1][0]) == key(x) {
      assert b == init + [a[|a| - 1] + [x]] by {
        RunsAppendJoin(t, x, key);
      }
      assert b[..n] == init;
    } else {
      assert b == a + [[x]] by {
        RunsAppendNew(t, x, key);
      }
      assert b[..n] == init;
    }
  }

  /**
   * The runs closed after reading a prefix (all but the last) are the first
   * runs of the whole sequence: reading more only extends the last one or
   * starts new ones.
   */
  lemma {:induction false} RunsPrefix<T, K>(s: seq<T>, n: int, key: T -> K)
    requires 0 < n <= |s|
    ensures var a, r := Runs(s[..n], key), Runs(s, key); |a| <= |r| && r[..|a| - 1] == a[..|a| - 1]
    decreases |s| - n
  {
    if n < |s| {
      RunsPrefix(s, n + 1, key);
      assert s[..n + 1] == s[..n] + [s[n]];
      var a, b, r := Runs(s[..n], key), Runs(s[..n + 1], key), Runs(s, key);
      RunsStep(s[..n], s[n], key);
      assert r[..|a| - 1] == r[..|b| - 1][..|a| - 1];
    } else {
      assert s[..n] == s;
    }
  }

  /** Every element of a run is an element of the runs laid end to end. */
  lemma {:induction false} FlattenContains<T>(r: seq<seq<T>>, i: int, j: int)
    requires 0 <= i < |r| && 0 <= j < |r[i]|
    ensures r[i][j] in Flatten(r)
  {
    if i < |r| - 1 {
      FlattenContains(r[..|r| - 1], i, j);
    }
  }

  /** Every run starts with an element of the sequence. */
  lemma {:induction false} RunsHeads<T, K>(s: seq<T>, key: T -> K)
    ensures forall i :: 0 <= i < |Runs(s, key)| ==> Runs(s, key)[i][0] in s
  {
    if s != [] {
      var front, x := s[..|s| - 1], s[|s| - 1];
      assert s == front + [x];
      RunsHeads(front, key);
      var r, q := Runs(front, key), Runs(s, key);
      forall i | 0 <= i < |q| ensures q[i][0] in s {
        if i < |r| {
          assert q[i][0] == r[i][0];
          assert r[i][0] in front;
        } else {
          assert q[i] == [x];
        }
      }
    }
  }

  /** An order the elements respect from left to right is respected by the runs' first elements. */
  lemma {:induction false} RunsHeadsInOrder<T, K>(s: seq<T>, key: T -> K, below: (T, T) -> bool)
    requires forall a, b :: 0 <= a < b < |s| ==> below(s[a], s[b])
    ensures forall i, j :: 0 <= i < j < |Runs(s, key)| ==> below(Runs(s, key)[i][0], Runs(s, key)[j][0])
  {
    if s != [] {
      var front, x := s[..|s| - 1], s[|s| - 1];
      RunsHeadsInOrder(front, key, below);
      var r, q := Runs(front, key), Runs(s, key);
      if |r| > 0 && key(r[|r| - 1][0]) == key(x) {
        assert forall i :: 0 <= i < |q| ==> q[i][0] == r[i][0];
      } else {
        RunsHeads(front, key);
        forall i | 0 <= i < |r| ensures below(r[i][0], x) {
          assert r[i][0] in front;
          var k :| 0 <= k < |front| && front[k] == r[i][0];
          assert s[k] == front[k];
        }
        assert forall i :: 0 <= i < |r| ==> q[i] == r[i];
        assert q[|r|] == [x];
      }
    }
  }
}
