/**
 * Calendar time as the ledger scripts see it after converting a row's POSIX
 * timestamp to local time: the broken-down fields, their order, and the two
 * pieces of text the scripts format from them (`%m/%d` or `%Y/%m/%d`, and `%H:%M`).
 */
module Clock {
  import opened Wrappers
  import opened Text

  datatype Timestamp = Timestamp(year: nat, month: nat, day: nat, hour: nat, minute: nat, second: nat)

  /** The fields a local time can take. */
  predicate WellFormed(t: Timestamp)
  {
    1 <= t.month <= 12 && 1 <= t.day <= 31 && t.hour < 24 && t.minute < 60 && t.second < 60
  }

  /** Chronological order: the fields compared from the year down to the second. */
  predicate Before(a: Timestamp, b: Timestamp)
  {
    if a.year != b.year then a.year < b.year
    else if a.month != b.month then a.month < b.month
    else if a.day != b.day then a.day < b.day
    else if a.hour != b.hour then a.hour < b.hour
    else if a.minute != b.minute then a.minute < b.minute
    else a.second < b.second
  }

  lemma BeforeStrictTotal(a: Timestamp, b: Timestamp, c: Timestamp)
    ensures !Before(a, a)
    ensures Before(a, b) ==> !Before(b, a)
    ensures Before(a, b) && Before(b, c) ==> Before(a, c)
    ensures a == b || Before(a, b) || Before(b, a)
  {
  }

  /** Earlier years come first whatever the other fields say. */
  lemma BeforeYear(a: Timestamp, b: Timestamp)
    ensures Before(a, b) ==> a.year <= b.year
    ensures a.year < b.year ==> Before(a, b)
  {
  }

  /** `strftime('%m/%d')`: two zero-filled digits each, the month first. */
  function MonthDay(t: Timestamp): (s: string)
    ensures WellFormed(t) ==> |s| == 5 && s[2] == '/' && AllDigits(s[..2]) && AllDigits(s[3..])
    ensures WellFormed(t) ==> ParseNat(s[..2]) == t.month && ParseNat(s[3..]) == t.day
  {
    var s := ZeroPad(t.month, 2) + "/" + ZeroPad(t.day, 2);
    assert WellFormed(t) ==> |ZeroPad(t.month, 2)| == 2 && |ZeroPad(t.day, 2)| == 2 && s[..2] == ZeroPad(t.month, 2) && s[3..] == ZeroPad(t.day, 2) by {
      if WellFormed(t) { TwoDigits(t.month); TwoDigits(t.day); }
    }
    s
  }

  /** `strftime('%m/%d' if year == t.year else '%Y/%m/%d')`; `%Y` is the year without padding. */
  function DateText(t: Timestamp, year: Option<nat>): (s: string)
    ensures year == Some(t.year) ==> s == MonthDay(t)
    ensures year != Some(t.year) && WellFormed(t) ==> |s| > 6 && s[|s| - 6] == '/' && s[|s| - 5..] == MonthDay(t)
    ensures year != Some(t.year) && WellFormed(t) ==> AllDigits(s[..|s| - 6]) && ParseNat(s[..|s| - 6]) == t.year
  {
    if year == Some(t.year) then MonthDay(t)
    else
      var y := Decimal(t.year);
      ParseDecimal(t.year);
      var s := y + "/" + MonthDay(t);
      assert WellFormed(t) ==> s[..|y|] == y && s[|s| - 5..] == MonthDay(t);
      s
  }

  /** `strftime('%H:%M')`. */
  function TimeText(t: Timestamp): (s: string)
    ensures WellFormed(t) ==> |s| == 5 && s[2] == ':' && AllDigits(s[..2]) && AllDigits(s[3..])
    ensures WellFormed(t) ==> ParseNat(s[..2]) == t.hour && ParseNat(s[3..]) == t.minute
  {
    var s := ZeroPad(t.hour, 2) + ":" + ZeroPad(t.minute, 2);
    assert WellFormed(t) ==> |ZeroPad(t.hour, 2)| == 2 && |ZeroPad(t.minute, 2)| == 2 && s[..2] == ZeroPad(t.hour, 2) && s[3..] == ZeroPad(t.minute, 2) by {
      if WellFormed(t) { TwoDigits(t.hour); TwoDigits(t.minute); }
    }
    s
  }

  /** `strftime('\nY%Y\n')`. */
  function YearMarker(year: nat): (s: string)
    ensures |s| >= 4 && s[..2] == "\nY" && s[|s| - 1] == '\n'
    ensures AllDigits(s[2..|s| - 1]) && ParseNat(s[2..|s| - 1]) == year
  {
    ParseDecimal(year);
    var s := "\nY" + Decimal(year) + "\n";
    assert s[2..|s| - 1] == Decimal(year);
    s
  }
}
