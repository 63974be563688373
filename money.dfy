/**
 * Money amounts: a Flow is a signed number of cents in one currency, optionally
 * annotated with a payee and a comment. Its text is exact integer arithmetic:
 * an optional minus sign, comma-grouped whole units, a ".DD" cents part when
 * there are cents or the amount reaches a thousand units, and either a "$"
 * prefix (USD) or a " CODE" suffix.
 */
module Money {
  import opened Wrappers
  import opened Text

  datatype Flow = Flow(amount: int, currency: string, payee: Option<string>, comment: Option<string>)

  function Abs(x: int): nat { if x < 0 then -x else x }

  /** Whether the text carries a ".DD" cents part. */
  predicate HasFraction(amount: int)
  {
    Abs(amount) % 100 != 0 || Abs(amount) / 100 >= 1000
  }

  /** Whole units in groups of three digits, most significant group first and unpadded. */
  function Grouped(n: nat): string
  {
    if n < 1000 then Decimal(n) else Grouped(n / 1000) + "," + ZeroPad(n % 1000, 3)
  }

  function Cents(amount: int): string
  {
    if HasFraction(amount) then "." + ZeroPad(Abs(amount) % 100, 2) else ""
  }

  /** The text of |amount| without sign and currency. */
  function Body(amount: int): string
  {
    Grouped(Abs(amount) / 100) + Cents(amount)
  }

  /** The currency marker: a "$" prefix for USD, a space and the code after the text otherwise. */
  function Marked(body: string, currency: string): string
  {
    if currency == "USD" then "$" + body else body + " " + currency
  }

  /** `str(Flow(amount, currency, ...))`. */
  function Format(amount: int, currency: string): string
  {
    var money := Marked(Body(amount), currency);
    if amount < 0 then "-" + money else money
  }

  /** Commas stand exactly at every fourth place counted from the right, digits elsewhere. */
  predicate ThousandsGrouped(s: string)
  {
    && |s| % 4 != 0
    && (forall i :: 0 <= i < |s| ==> IsDigit(s[i]) || s[i] == ',')
    && (forall i :: 0 <= i < |s| ==> (s[i] == ',' <==> (|s| - i) % 4 == 0))
  }

  lemma AppendGroup(g: string, z: string)
    requires ThousandsGrouped(g) && |z| == 3 && AllDigits(z)
    ensures ThousandsGrouped(g + "," + z) && (g + "," + z)[0] == g[0]
  {
    var s := g + "," + z;
    forall i | 0 <= i < |s|
      ensures (IsDigit(s[i]) || s[i] == ',') && (s[i] == ',' <==> (|s| - i) % 4 == 0)
    {
      if i < |g| {
        assert s[i] == g[i];
        assert (|s| - i) % 4 == (|g| - i) % 4;
      } else if i > |g| {
        assert s[i] == z[i - |g| - 1];
      }
    }
  }

  lemma ShortGroup(d: string)
    requires AllDigits(d) && 1 <= |d| <= 3
    ensures ThousandsGrouped(d)
  {
    forall i | 0 <= i < |d|
      ensures d[i] == ',' <==> (|d| - i) % 4 == 0
    {
      assert 0 < |d| - i < 4;
    }
  }

  lemma {:induction false} GroupedShape(n: nat)
    ensures ThousandsGrouped(Grouped(n)) && |Grouped(n)| > 0
    ensures IsDigit(Grouped(n)[0]) && (Grouped(n)[0] == '0' <==> n == 0)
    ensures ParseNat(DigitsOf(Grouped(n))) == n
  {
    if n < 1000 {
      var d := Decimal(n);
      assert Pow10(3) == 1000;
      DecimalLength(n, 3);
      ShortGroup(d);
      DigitsOfDigits(d);
      ParseDecimal(n);
    } else {
      GroupedShape(n / 1000);
      GroupedStepShape(n);
      GroupedStepValue(n);
    }
  }

  lemma GroupedStepShape(n: nat)
    requires n >= 1000
    requires ThousandsGrouped(Grouped(n / 1000)) && |Grouped(n / 1000)| > 0
    requires IsDigit(Grouped(n / 1000)[0]) && Grouped(n / 1000)[0] != '0'
    ensures ThousandsGrouped(Grouped(n)) && |Grouped(n)| > 0
    ensures IsDigit(Grouped(n)[0]) && Grouped(n)[0] != '0'
  {
    var g, z := Grouped(n / 1000), ZeroPad(n % 1000, 3);
    ThreeDigits(n % 1000);
    assert Grouped(n) == g + [','] + z;
    AppendGroup(g, z);
  }

  lemma GroupedStepValue(n: nat)
    requires n >= 1000
    requires ParseNat(DigitsOf(Grouped(n / 1000))) == n / 1000
    ensures ParseNat(DigitsOf(Grouped(n))) == n
  {
    var g, z := Grouped(n / 1000), ZeroPad(n % 1000, 3);
    ThreeDigits(n % 1000);
    assert Grouped(n) == g + [','] + z;
    DigitsOfJoined(g, ',', z);
    ParseNatAppend(DigitsOf(g), z);
    assert Pow10(3) == 1000;
  }

  /** A '.' appears in the amount's text exactly when cents are shown, followed by the two cent digits. */
  lemma FractionMark(amount: int)
    ensures '.' in Body(amount) <==> HasFraction(amount)
    ensures HasFraction(amount) ==>
      var b := Body(amount);
      |b| >= 3 && b[|b| - 3] == '.' && AllDigits(b[|b| - 2..]) && ParseNat(b[|b| - 2..]) == Abs(amount) % 100
  {
    var g := Grouped(Abs(amount) / 100);
    GroupedShape(Abs(amount) / 100);
    assert '.' !in g;
    var b := Body(amount);
    if HasFraction(amount) {
      TwoDigits(Abs(amount) % 100);
      assert b[|g|] == '.';
      assert b[|b| - 2..] == ZeroPad(Abs(amount) % 100, 2);
    } else {
      assert b == g;
    }
  }

  /**
   * Dropping sign, currency, commas and the '.' leaves the digits of |amount|
   * when cents are shown, and of |amount| / 100 (a whole number of units) otherwise.
   */
  lemma FormatDigits(amount: int)
    ensures ParseNat(DigitsOf(Body(amount))) == if HasFraction(amount) then Abs(amount) else Abs(amount) / 100
    ensures !HasFraction(amount) ==> Abs(amount) % 100 == 0
  {
    var w := Abs(amount) / 100;
    if HasFraction(amount) {
      FractionDigits(amount);
    } else {
      GroupedShape(w);
      assert Body(amount) == Grouped(w);
    }
  }

  lemma FractionDigits(amount: int)
    requires HasFraction(amount)
    ensures ParseNat(DigitsOf(Body(amount))) == Abs(amount)
  {
    var a := Abs(amount);
    var g, z := Grouped(a / 100), ZeroPad(a % 100, 2);
    var d := DigitsOf(g);
    assert ParseNat(d) == a / 100 by {
      GroupedShape(a / 100);
    }
    assert DigitsOf(Body(amount)) == d + z by {
      assert Body(amount) == g + ['.'] + z;
      DigitsOfJoined(g, '.', z);
    }
    assert ParseNat(d + z) == ParseNat(d) * 100 + a % 100 by {
      TwoDigits(a % 100);
      ParseNatAppend(d, z);
      assert Pow10(2) == 100;
    }
  }

  /** The text starts with '-' exactly for negative amounts, and the rest is the text of |amount|. */
  lemma FormatSign(amount: int, currency: string)
    ensures |Format(amount, currency)| > 0
    ensures Format(amount, currency)[0] == '-' <==> amount < 0
    ensures amount < 0 ==> Format(amount, currency)[1..] == Format(-amount, currency)
  {
    GroupedShape(Abs(amount) / 100);
    assert Body(amount)[0] == Grouped(Abs(amount) / 100)[0];
  }

  /** The amount's text, without sign and currency, uses only digits, ',' and '.'. */
  lemma BodyChars(amount: int)
    ensures |Body(amount)| > 0
    ensures forall i :: 0 <= i < |Body(amount)| ==> IsDigit(Body(amount)[i]) || Body(amount)[i] == ',' || Body(amount)[i] == '.'
  {
    var b, g := Body(amount), Grouped(Abs(amount) / 100);
    GroupedShape(Abs(amount) / 100);
    forall i | 0 <= i < |b|
      ensures IsDigit(b[i]) || b[i] == ',' || b[i] == '.'
    {
      if i < |g| {
        assert b[i] == g[i];
      } else if HasFraction(amount) {
        var z := ZeroPad(Abs(amount) % 100, 2);
        assert b == g + "." + z;
        if i > |g| { assert b[i] == z[i - |g| - 1]; }
      }
    }
  }

  /** USD is written as a "$" prefix and never named; other currencies follow the amount after a space. */
  lemma FormatCurrency(amount: int, currency: string)
    ensures var s := Format(amount, currency); var k := if amount < 0 then 1 else 0;
      if currency == "USD" then
        |s| > k + 1 && s[k] == '$' && s[k + 1..] == Body(amount) && 'U' !in s
      else
        |s| > k + |currency| + 1 && s[|s| - |currency| - 1..] == " " + currency
        && s[k..|s| - |currency| - 1] == Body(amount) && ('$' in s <==> '$' in currency)
  {
    BodyChars(amount);
    if currency == "USD" {
      DollarPrefix(amount);
    } else {
      CodeSuffix(amount, currency);
    }
  }

  /** The text of an amount holds a line break only when its currency code does. */
  lemma FormatNoBreak(amount: int, currency: string)
    ensures '\n' in Format(amount, currency) <==> '\n' in currency
  {
    BodyChars(amount);
    assert '\n' !in Body(amount);
  }

  lemma DollarPrefix(amount: int)
    requires |Body(amount)| > 0
    requires forall i :: 0 <= i < |Body(amount)| ==> IsDigit(Body(amount)[i]) || Body(amount)[i] == ',' || Body(amount)[i] == '.'
    ensures var s := Format(amount, "USD"); var k := if amount < 0 then 1 else 0;
      |s| > k + 1 && s[k] == '$' && s[k + 1..] == Body(amount) && 'U' !in s
  {
    var b := Body(amount);
    var m := Marked(b, "USD");
    assert 'U' !in m && m[0] == '$' && m[1..] == b && |m| > 1 by {
      assert 'U' !in b;
      assert m == ['$'] + b;
    }
    if amount < 0 {
      SignedTail(m);
    }
  }

  lemma SignedTail(m: string)
    ensures |"-" + m| == |m| + 1 && ("-" + m)[1..] == m && ("-" + m)[0] == '-'
    ensures forall c :: c in "-" + m <==> c == '-' || c in m
  {
  }

  lemma CodeSuffix(amount: int, currency: string)
    requires currency != "USD"
    requires |Body(amount)| > 0
    requires forall i :: 0 <= i < |Body(amount)| ==> IsDigit(Body(amount)[i]) || Body(amount)[i] == ',' || Body(amount)[i] == '.'
    ensures var s := Format(amount, currency); var k := if amount < 0 then 1 else 0;
      |s| > k + |currency| + 1 && s[|s| - |currency| - 1..] == " " + currency
      && s[k..|s| - |currency| - 1] == Body(amount) && ('$' in s <==> '$' in currency)
  {
    var b := Body(amount);
    var s := Format(amount, currency);
    var k := if amount < 0 then 1 else 0;
    var p := if amount < 0 then "-" else "";
    var n := |currency| + 1;
    assert s == p + b + " " + currency;
    assert s[k..|s| - n] == b;
    assert s[|s| - n..] == " " + currency;
    assert '$' !in b;
    NoDollarAdded(p, b, currency);
  }

  lemma NoDollarAdded(p: string, b: string, currency: string)
    requires '$' !in p && '$' !in b
    ensures '$' in p + b + " " + currency <==> '$' in currency
  {
    var q := p + b + " ";
    assert '$' !in q;
    assert p + b + " " + currency == q + currency;
  }

  /** Reads a formatted amount back: sign, currency marker, digits; a '.' marks that cents are shown. */
  function StripCurrency(s: string, currency: string): Option<string>
  {
    if currency == "USD" then
      if |s| > 0 && s[0] == '$' then Some(s[1..]) else None
    else
      var n := |currency| + 1;
      if |s| >= n && s[|s| - n..] == " " + currency then Some(s[..|s| - n]) else None
  }

  function Parse(s: string, currency: string): Option<int>
  {
    var negative := |s| > 0 && s[0] == '-';
    match StripCurrency(if negative then s[1..] else s, currency)
    case None => None
    case Some(body) =>
      var n := ParseNat(DigitsOf(body));
      var v := if '.' in body then n else 100 * n;
      Some(if negative then -v else v)
  }

  /** The text determines the amount: reading it back gives the amount again. */
  lemma ParseFormat(amount: int, currency: string)
    ensures Parse(Format(amount, currency), currency) == Some(amount)
  {
    var b := Body(amount);
    assert |Marked(b, currency)| > 0 && Marked(b, currency)[0] != '-' && Parse(Marked(b, currency), currency) == Some(Abs(amount)) by {
      BodyValue(amount);
      ParseUnsigned(b, currency);
    }
    if amount < 0 {
      ParseNegated(Marked(b, currency), currency, Abs(amount));
    }
  }

  /** What the body of the text reads back as: |amount|, in cents. */
  lemma BodyValue(amount: int)
    ensures var b := Body(amount); var n := ParseNat(DigitsOf(b));
      |b| > 0 && b[0] != '-' && (if '.' in b then n else 100 * n) == Abs(amount)
  {
    GroupedShape(Abs(amount) / 100);
    assert Body(amount)[0] == Grouped(Abs(amount) / 100)[0];
    FractionMark(amount);
    FormatDigits(amount);
  }

  /** A leading '-' negates what the rest reads as. */
  lemma ParseNegated(m: string, currency: string, v: int)
    requires |m| > 0 && m[0] != '-' && Parse(m, currency) == Some(v)
    ensures Parse("-" + m, currency) == Some(-v)
  {
    assert ("-" + m)[1..] == m;
  }

  lemma ParseUnsigned(b: string, currency: string)
    requires |b| > 0 && b[0] != '-'
    ensures var n := ParseNat(DigitsOf(b));
      Parse(Marked(b, currency), currency) == Some(if '.' in b then n else 100 * n)
  {
    StripMarked(b, currency);
    assert Marked(b, currency)[0] != '-';
  }

  lemma StripMarked(b: string, currency: string)
    ensures StripCurrency(Marked(b, currency), currency) == Some(b)
  {
    var m := Marked(b, currency);
    if currency == "USD" {
      assert m[1..] == b;
    } else {
      assert m[|m| - |currency| - 1..] == " " + currency;
      assert m[..|m| - |currency| - 1] == b;
    }
  }

  lemma SmallDecimal(n: nat)
    requires n < 10
    ensures Decimal(n) == [DigitChar(n)]
  {
  }

  lemma TwoZeros()
    ensures ZeroPad(0, 2) == "00" && ZeroPad(0, 3) == "000"
  {
    SmallDecimal(0);
    assert Repeat('0', 1) == "0";
    assert Repeat('0', 2) == "00";
  }

  /** Amounts under a thousand units without cents show neither cents nor commas. */
  lemma FormatExampleWhole()
    ensures Format(0, "USD") == "$0"
    ensures Format(-250, "EUR") == "-2.50 EUR"
  {
    SmallDecimal(0);
    SmallDecimal(2);
    SmallDecimal(5);
    assert Decimal(50) == "50";
    assert Pow10(2) == 100;
    assert ZeroPad(50, 2) == "50";
    assert Body(-250) == "2.50";
  }

  /** Cents are shown when there are any. */
  lemma FormatExampleCents()
    ensures Format(150, "USD") == "$1.50"
  {
    SmallDecimal(1);
    SmallDecimal(5);
    SmallDecimal(0);
    assert Decimal(50) == "50";
    assert Pow10(2) == 100;
    assert ZeroPad(50, 2) == "50";
    assert Body(150) == "1.50";
  }

  /** From a thousand units on, the cents are shown even when they are zero. */
  lemma FormatExampleThousand()
    ensures Format(100000, "USD") == "$1,000.00"
  {
    SmallDecimal(1);
    TwoZeros();
    assert Grouped(1000) == "1" + "," + "000" by {
      assert Pow10(3) == 1000;
      assert Grouped(1000) == Grouped(1) + "," + ZeroPad(0, 3);
    }
    assert HasFraction(100000);
    assert Body(100000) == "1,000" + "." + "00";
  }

  lemma GroupedUnfold(n: nat)
    ensures n < 1000 ==> Grouped(n) == Decimal(n)
    ensures n >= 1000 ==> Grouped(n) == Grouped(n / 1000) + "," + ZeroPad(n % 1000, 3)
  {
  }

  lemma ConcatCons(x: string, m: seq<string>)
    ensures Concat([x] + m) == x + Concat(m)
  {
    assert ([x] + m)[1..] == m;
  }

  /** One turn of the grouping loop: the lowest group of c moves from the number to the front of the text. */
  lemma GroupFront(c: nat, rest: seq<string>)
    ensures c < 1000 ==> Concat([Decimal(c)] + rest) == Grouped(c) + Concat(rest)
    ensures c >= 1000 ==> Grouped(c / 1000) + Concat(["," + ZeroPad(c % 1000, 3)] + rest) == Grouped(c) + Concat(rest)
  {
    if c < 1000 {
      ConcatCons(Decimal(c), rest);
    } else {
      ConcatCons("," + ZeroPad(c % 1000, 3), rest);
    }
  }

  /** The cents part the loop starts from. */
  lemma CentsStart(amount: int)
    ensures var c := Abs(amount) / 100; var d := Abs(amount) % 100;
      Concat(if d != 0 || c >= 1000 then ["." + ZeroPad(d, 2)] else []) == Cents(amount)
  {
    var d := Abs(amount) % 100;
    ConcatCons("." + ZeroPad(d, 2), []);
  }

  /** Adding the currency marker and the sign around the pieces of the body. */
  lemma Assemble(amount: int, currency: string, money: seq<string>)
    requires Concat(money) == Body(amount)
    ensures var m := if currency == "USD" then ["$"] + money else money + [" ", currency];
      Concat(if amount < 0 then ["-"] + m else m) == Format(amount, currency)
  {
    var m := if currency == "USD" then ["$"] + money else money + [" ", currency];
    assert Concat(m) == Marked(Body(amount), currency) by {
      MarkPieces(money, currency);
    }
    if amount < 0 {
      ConcatCons("-", m);
    }
  }

  lemma MarkPieces(money: seq<string>, currency: string)
    ensures Concat(if currency == "USD" then ["$"] + money else money + [" ", currency]) == Marked(Concat(money), currency)
  {
    if currency == "USD" {
      ConcatCons("$", money);
    } else {
      ConcatAppend(money, [" ", currency]);
      ConcatCons(" ", [currency]);
      ConcatCons(currency, []);
    }
  }

  /** The `while True` loop of `Flow.__str__`: each group of three digits is inserted at the front. */
  method PrependGroups(c: nat, tail: seq<string>) returns (money: seq<string>)
    ensures Concat(money) == Grouped(c) + Concat(tail)
  {
    var coins := c;
    money := tail;
    while true
      invariant Grouped(coins) + Concat(money) == Grouped(c) + Concat(tail)
      decreases coins
    {
      var part := coins % 1000;
      GroupFront(coins, money);
      coins := coins / 1000;
      if coins == 0 {
        money := [Decimal(part)] + money;
        break;
      }
      money := ["," + ZeroPad(part, 3)] + money;
    }
  }

  /**
   * `Flow.__str__` and `fmt_currency`, the same code in both scripts: the cents,
   * then the groups in front of them, then the currency and the sign.
   */
  method FormatText(amount: int, currency: string) returns (s: string)
    ensures s == Format(amount, currency)
  {
    var coins := amount;
    var sign := coins >= 0;
    if !sign { coins := -coins; }
    var decim := coins % 100;
    coins := coins / 100;
    var money: seq<string>;
    if decim != 0 || coins >= 1000 {
      money := ["." + ZeroPad(decim, 2)];
    } else {
      money := [];
    }
    CentsStart(amount);
    money := PrependGroups(coins, money);
    Assemble(amount, currency, money);
    if currency == "USD" {
      money := ["$"] + money;
    } else {
      money := money + [" ", currency];
    }
    if !sign {
      money := ["-"] + money;
    }
    s := Concat(money);
  }

  /** `Flow.__add__`: only flows with equal comment, payee and currency add up; the sum carries no annotation. */
  function Add(a: Flow, b: Flow): (r: Result<Flow>)
    ensures r.Ok? <==> a.comment == b.comment && a.payee == b.payee && a.currency == b.currency
    ensures r.Err? ==> r.error == AssertionError
    ensures r.Ok? ==> r.value.amount == a.amount + b.amount && r.value.currency == a.currency
    ensures r.Ok? ==> r.value.payee.None? && r.value.comment.None?
  {
    if a.comment != b.comment || a.payee != b.payee || a.currency != b.currency then Err(AssertionError)
    else Ok(Flow(a.amount + b.amount, a.currency, None, None))
  }

  lemma AddCommutes(a: Flow, b: Flow)
    ensures Add(a, b) == Add(b, a)
  {
  }

  /** On flows without payee or comment in one currency, addition is associative. */
  lemma AddAssociates(a: Flow, b: Flow, c: Flow)
    requires a.payee == b.payee == c.payee == None && a.comment == b.comment == c.comment == None
    requires a.currency == b.currency == c.currency
    ensures Add(a, b).Ok? && Add(b, c).Ok?
    ensures Add(Add(a, b).value, c) == Add(a, Add(b, c).value)
    ensures Add(Add(a, b).value, c).Ok? && Add(Add(a, b).value, c).value.amount == a.amount + b.amount + c.amount
  {
  }
}
