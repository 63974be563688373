/**
 * The pieces of Python string handling the ledger scripts rely on: `'%d'` and
 * zero-filled `'%0Nd'` of non-negative integers, `'{:<N}'` and `'{:>N}'`
 * alignment, `str.join`, truthiness and `or` of optional strings, `str(None)`,
 * and the ordering of `str` values.
 */
module Text {
  import opened Wrappers

  predicate IsDigit(c: char) { '0' <= c <= '9' }

  predicate AllDigits(s: string) { forall i :: 0 <= i < |s| ==> IsDigit(s[i]) }

  function DigitChar(d: nat): (c: char)
    requires d < 10
    ensures IsDigit(c) && c as int - '0' as int == d
  {
    (d + '0' as int) as char
  }

  function Pow10(n: nat): (p: nat)
    ensures p >= 1
  {
    if n == 0 then 1 else 10 * Pow10(n - 1)
  }

  lemma {:induction false} Pow10Monotone(m: nat, n: nat)
    requires m <= n
    ensures Pow10(m) <= Pow10(n)
  {
    if m < n { Pow10Monotone(m, n - 1); }
  }

  function Max(a: nat, b: nat): nat { if a < b then b else a }

  /** `'%d' % n` for n >= 0: no leading zero, and as many digits as n needs. */
  function Decimal(n: nat): (s: string)
    ensures 1 <= |s| && AllDigits(s)
    ensures s[0] == '0' <==> n == 0
  {
    if n < 10 then [DigitChar(n)] else Decimal(n / 10) + [DigitChar(n % 10)]
  }

  /** The decimal text of n has exactly as many digits as n needs. */
  lemma {:induction false} DecimalBounds(n: nat)
    ensures n < Pow10(|Decimal(n)|)
    ensures |Decimal(n)| > 1 ==> Pow10(|Decimal(n)| - 1) <= n
  {
    if n >= 10 {
      DecimalBounds(n / 10);
    }
  }

  /** The number a string of decimal digits denotes, most significant digit first. */
  function ParseNat(s: string): nat
    requires AllDigits(s)
  {
    if s == [] then 0 else 10 * ParseNat(s[..|s| - 1]) + (s[|s| - 1] as int - '0' as int)
  }

  lemma {:induction false} ParseDecimal(n: nat)
    ensures ParseNat(Decimal(n)) == n
  {
    if n >= 10 {
      var s := Decimal(n);
      assert s[..|s| - 1] == Decimal(n / 10);
      ParseDecimal(n / 10);
    }
  }

  lemma {:induction false} DecimalLength(n: nat, k: nat)
    ensures 0 < k && n < Pow10(k) ==> |Decimal(n)| <= k
  {
    var s := Decimal(n);
    DecimalBounds(n);
    if 0 < k && n < Pow10(k) && |s| > k {
      Pow10Monotone(k, |s| - 1);
    }
  }

  lemma {:induction false} ParseNatAppend(x: string, y: string)
    requires AllDigits(x) && AllDigits(y)
    ensures AllDigits(x + y)
    ensures ParseNat(x + y) == ParseNat(x) * Pow10(|y|) + ParseNat(y)
  {
    var xy := x + y;
    if y == [] {
      assert xy == x;
    } else {
      var y' := y[..|y| - 1];
      assert xy[..|xy| - 1] == x + y';
      ParseNatAppend(x, y');
      var d := y[|y| - 1] as int - '0' as int;
      assert xy[|xy| - 1] == y[|y| - 1];
      assert ParseNat(xy) == 10 * ParseNat(x + y') + d;
      assert ParseNat(y) == 10 * ParseNat(y') + d;
      assert Pow10(|y|) == 10 * Pow10(|y'|);
      ShiftDigit(ParseNat(x), Pow10(|y'|), ParseNat(y'), d);
    }
  }

  /** Appending a digit multiplies the value so far by ten. */
  lemma ShiftDigit(a: int, p: int, b: int, d: int)
    ensures 10 * (a * p + b) + d == a * (10 * p) + (10 * b + d)
  {
    assert 10 * (a * p) == a * (10 * p);
  }

  function Repeat(c: char, k: nat): (s: string)
    ensures |s| == k && forall i :: 0 <= i < k ==> s[i] == c
  {
    seq(k, _ => c)
  }

  lemma {:induction false} ParseZeros(k: nat)
    ensures AllDigits(Repeat('0', k)) && ParseNat(Repeat('0', k)) == 0
  {
    if k > 0 {
      assert Repeat('0', k)[..k - 1] == Repeat('0', k - 1);
      ParseZeros(k - 1);
    }
  }

  /** `'%0<width>d' % n` for n >= 0: the decimal text of n, zero-filled on the left to `width`. */
  function ZeroPad(n: nat, width: nat): (s: string)
    ensures AllDigits(s) && |s| == Max(|Decimal(n)|, width)
    ensures ParseNat(s) == n
  {
    var d := Decimal(n);
    ParseDecimal(n);
    DecimalLength(n, width);
    if |d| < width then
      ParseZeros(width - |d|);
      ParseNatAppend(Repeat('0', width - |d|), d);
      Repeat('0', width - |d|) + d
    else
      d
  }

  /** A number below 10^width is padded to exactly `width` digits. */
  lemma ZeroPadWidth(n: nat, width: nat)
    requires 0 < width && n < Pow10(width)
    ensures |ZeroPad(n, width)| == width
  {
    DecimalLength(n, width);
  }

  lemma TwoDigits(n: nat)
    requires n < 100
    ensures |ZeroPad(n, 2)| == 2
  {
    assert Pow10(2) == 100;
    ZeroPadWidth(n, 2);
  }

  lemma ThreeDigits(n: nat)
    requires n < 1000
    ensures |ZeroPad(n, 3)| == 3
  {
    assert Pow10(3) == 1000;
    ZeroPadWidth(n, 3);
  }

  /** `'{:<width}'.format(s)`: s, then spaces up to `width`; never truncated. */
  function PadRight(s: string, width: nat): (r: string)
    ensures |r| == Max(|s|, width) && r[..|s|] == s && r[|s|..] == Repeat(' ', |r| - |s|)
  {
    if |s| < width then s + Repeat(' ', width - |s|) else s
  }

  /** `'{:>width}'.format(s)`: spaces up to `width`, then s; never truncated. */
  function PadLeft(s: string, width: nat): (r: string)
    ensures |r| == Max(|s|, width) && r[|r| - |s|..] == s && r[..|r| - |s|] == Repeat(' ', |r| - |s|)
  {
    if |s| < width then Repeat(' ', width - |s|) + s else s
  }

  /** `sep.join(xs)`. */
  function Join(sep: string, xs: seq<string>): string
  {
    if |xs| == 0 then "" else if |xs| == 1 then xs[0] else Join(sep, xs[..|xs| - 1]) + sep + xs[|xs| - 1]
  }

  lemma JoinAppend(sep: string, xs: seq<string>, x: string)
    requires xs != []
    ensures Join(sep, xs + [x]) == Join(sep, xs) + sep + x
  {
    assert (xs + [x])[..|xs|] == xs;
  }

  /** A joined text starts with the first piece. */
  lemma {:induction false} JoinStarts(sep: string, xs: seq<string>)
    requires xs != []
    ensures |xs[0]| <= |Join(sep, xs)| && Join(sep, xs)[..|xs[0]|] == xs[0]
  {
    if |xs| > 1 {
      JoinStarts(sep, xs[..|xs| - 1]);
    }
  }

  lemma DigitsNoBreak(s: string)
    requires AllDigits(s)
    ensures '\n' !in s
  {
  }

  /** `s.split('\n')`: the pieces between line breaks, so a text without one is a single piece. */
  function SplitLines(s: string): (r: seq<string>)
    ensures |r| > 0
  {
    if s == [] then [""]
    else
      var r := SplitLines(s[..|s| - 1]);
      if s[|s| - 1] == '\n' then r + [""] else r[..|r| - 1] + [r[|r| - 1] + [s[|s| - 1]]]
  }

  /** Text without a line break extends the last piece. */
  lemma {:induction false} SplitExtend(s: string, t: string)
    requires '\n' !in t
    ensures var r := SplitLines(s); SplitLines(s + t) == r[..|r| - 1] + [r[|r| - 1] + t]
  {
    var r := SplitLines(s);
    if t == [] {
      assert s + t == s && r[|r| - 1] + t == r[|r| - 1];
      assert r[..|r| - 1] + [r[|r| - 1]] == r;
    } else {
      var t', c := t[..|t| - 1], t[|t| - 1];
      SplitExtend(s, t');
      var q := SplitLines(s + t');
      assert q[..|q| - 1] == r[..|r| - 1] && q[|q| - 1] == r[|r| - 1] + t';
      SplitChar(s + t', c);
      assert s + t' + [c] == s + t by { assert t' + [c] == t; Regroup(s, t', [c]); }
      assert q[|q| - 1] + [c] == r[|r| - 1] + t by { assert t' + [c] == t; Regroup(r[|r| - 1], t', [c]); }
    }
  }

  /** A character other than a line break extends the last piece. */
  lemma SplitChar(s: string, c: char)
    requires c != '\n'
    ensures var q := SplitLines(s); SplitLines(s + [c]) == q[..|q| - 1] + [q[|q| - 1] + [c]]
  {
    assert (s + [c])[..|s|] == s;
  }

  lemma Regroup<T>(a: seq<T>, b: seq<T>, c: seq<T>)
    ensures a + b + c == a + (b + c)
  {
  }

  /** A line break starts a new, empty piece. */
  lemma SplitBreak(s: string)
    ensures SplitLines(s + "\n") == SplitLines(s) + [""]
  {
    assert (s + "\n")[..|s|] == s;
  }

  /** Joined with line breaks, lines that hold none split back into themselves. */
  lemma {:induction false} SplitJoin(xs: seq<string>)
    requires xs != [] && forall i :: 0 <= i < |xs| ==> '\n' !in xs[i]
    ensures SplitLines(Join("\n", xs)) == xs
  {
    if |xs| == 1 {
      SplitExtend("", xs[0]);
      assert "" + xs[0] == xs[0];
    } else {
      var front, x := xs[..|xs| - 1], xs[|xs| - 1];
      var j := Join("\n", front);
      assert Join("\n", xs) == j + "\n" + x by {
        assert front + [x] == xs;
        JoinAppend("\n", front, x);
      }
      assert SplitLines(j + "\n") == front + [""] by {
        SplitJoin(front);
        SplitBreak(j);
      }
      SplitExtend(j + "\n", x);
      var r := front + [""];
      assert r[..|r| - 1] == front && r[|r| - 1] + x == x;
      assert front + [x] == xs;
    }
  }

  /** `''.join(xs)`. */
  function Concat(xs: seq<string>): string
  {
    if xs == [] then "" else xs[0] + Concat(xs[1..])
  }

  lemma {:induction false} ConcatAppend(xs: seq<string>, ys: seq<string>)
    ensures Concat(xs + ys) == Concat(xs) + Concat(ys)
  {
    if xs != [] {
      assert (xs + ys)[1..] == xs[1..] + ys;
      ConcatAppend(xs[1..], ys);
    } else {
      assert xs + ys == ys;
    }
  }

  /** The characters of s that are decimal digits, in order. */
  function DigitsOf(s: string): (d: string)
    ensures AllDigits(d)
  {
    if s == [] then [] else (if IsDigit(s[0]) then [s[0]] else []) + DigitsOf(s[1..])
  }

  lemma {:induction false} DigitsOfAppend(x: string, y: string)
    ensures DigitsOf(x + y) == DigitsOf(x) + DigitsOf(y)
  {
    if x == [] {
      assert x + y == y;
    } else {
      var h := if IsDigit(x[0]) then [x[0]] else [];
      assert (x + y)[0] == x[0] && (x + y)[1..] == x[1..] + y;
      DigitsOfAppend(x[1..], y);
      assert DigitsOf(x + y) == h + (DigitsOf(x[1..]) + DigitsOf(y));
      Regroup(h, DigitsOf(x[1..]), DigitsOf(y));
    }
  }

  /** A separator that is not a digit drops out of the digits of a joined text. */
  lemma DigitsOfJoined(x: string, sep: char, z: string)
    requires !IsDigit(sep) && AllDigits(z)
    ensures DigitsOf(x + [sep] + z) == DigitsOf(x) + z
  {
    DigitsOfAppend(x + [sep], z);
    DigitsOfAppend(x, [sep]);
    DigitsOfDigits(z);
    assert DigitsOf([sep]) == [] by { assert [sep][1..] == []; }
    assert DigitsOf(x) + [] == DigitsOf(x);
  }

  lemma {:induction false} DigitsOfDigits(s: string)
    requires AllDigits(s)
    ensures DigitsOf(s) == s
  {
    if s != [] { DigitsOfDigits(s[1..]); }
  }

  /** Python truthiness of an optional string: present and not empty. */
  predicate Truthy(o: Option<string>) { o.Some? && o.value != "" }

  /** Python's `a or b` on optional strings. */
  function Or(a: Option<string>, b: Option<string>): (r: Option<string>)
    ensures Truthy(r) <==> Truthy(a) || Truthy(b)
    ensures Truthy(a) ==> r == a
    ensures !Truthy(a) ==> r == b
  {
    if Truthy(a) then a else b
  }

  /** Python's `str()` of an optional string: None becomes the text "None". */
  function Str(o: Option<string>): (s: string)
    ensures o.Some? ==> s == o.value
    ensures o.None? ==> s == "None"
  {
    match o
    case None => "None"
    case Some(v) => v
  }

  /** Python's `a < b` on `str`: lexicographic by code point, a proper prefix first. */
  predicate StrLess(a: string, b: string)
  {
    if a == [] then b != []
    else if b == [] then false
    else if a[0] != b[0] then a[0] < b[0]
    else StrLess(a[1..], b[1..])
  }

  lemma {:induction false} StrLessIrreflexive(a: string)
    ensures !StrLess(a, a)
  {
    if a != [] { StrLessIrreflexive(a[1..]); }
  }

  lemma {:induction false} StrLessTransitive(a: string, b: string, c: string)
    requires StrLess(a, b) && StrLess(b, c)
    ensures StrLess(a, c)
  {
    if a != [] && b != [] && c != [] && a[0] == b[0] && b[0] == c[0] {
      StrLessTransitive(a[1..], b[1..], c[1..]);
    }
  }

  lemma {:induction false} StrLessTotal(a: string, b: string)
    ensures a == b || StrLess(a, b) || StrLess(b, a)
  {
    if a != [] && b != [] && a[0] == b[0] {
      StrLessTotal(a[1..], b[1..]);
      if a[1..] == b[1..] {
        assert a == [a[0]] + a[1..] && b == [b[0]] + b[1..];
      }
    }
  }

  lemma {:induction false} StrLessAsymmetric(a: string, b: string)
    requires StrLess(a, b)
    ensures !StrLess(b, a)
  {
    if a != [] && b != [] && a[0] == b[0] {
      StrLessAsymmetric(a[1..], b[1..]);
    }
  }
}
