/**
  Month windows over date keys. Both the admin calendar and the public calendar select a
  month's problems with the string range `prefix-01 <= id <= prefix-31`, where
  `prefix = f"{year:04d}-{month:02d}"`. `MonthWindowExact` shows that on canonical keys this
  range is exactly the days of that month, short months included.
*/
module MonthKeys {
  import opened Text
  import opened DateKeys

  /** `f"{year:04d}-{month:02d}"`. */
  function MonthPrefix(year: nat, month: nat): string
  {
    Pad(year, 4) + "-" + Pad(month, 2)
  }

  /** `f"{prefix}-01" <= key <= f"{prefix}-31"` as Python compares strings. */
  predicate InMonthWindow(key: string, prefix: string)
  {
    LexLe(prefix + "-01", key) && LexLe(key, prefix + "-31")
  }

  /** The `^\d{4}-\d{2}$` pattern both month queries are validated against (ASCII digits). */
  predicate MatchesMonthPattern(s: string)
  {
    |s| == 7 && AllDigits(s[..4]) && s[4] == '-' && AllDigits(s[5..])
  }

  /** `year, m = map(int, month.split("-"))` on a query the pattern accepted: the month
      may be anything from 00 to 99, and printing the pair back gives the query. */
  function ParseMonthQuery(s: string): (r: (nat, nat))
    requires MatchesMonthPattern(s)
    ensures r.0 <= MaxYear && r.1 < 100
    ensures MonthPrefix(r.0, r.1) == s
  {
    var parts := Split(s, '-');
    assert parts == [s[..4], s[5..]] by {
      assert s == s[..4] + ['-'] + s[5..];
      assert '-' !in s[..4] && '-' !in s[5..];
      SplitAfterPiece(s[..4], s[5..], '-');
      SplitNoSeparator(s[5..], '-');
    }
    PadDigitsValue(parts[0]);
    PadDigitsValue(parts[1]);
    assert s == parts[0] + "-" + parts[1];
    (DigitsValue(parts[0]), DigitsValue(parts[1]))
  }

  /** Every key is the month prefix of its day followed by the day. */
  lemma FormatSplit(d: Date)
    requires Valid(d)
    ensures Format(d) == MonthPrefix(d.year, d.month) + ("-" + Pad(d.day, 2))
    ensures |MonthPrefix(d.year, d.month)| == 7
  {
    PadLength(d.year, 4);
    PadLength(d.month, 2);
  }

  /** Month prefixes compare as strings exactly as (year, month) pairs compare. */
  lemma MonthPrefixOrder(y1: nat, m1: nat, y2: nat, m2: nat)
    requires 1 <= y1 <= MaxYear && 1 <= y2 <= MaxYear && 1 <= m1 <= 12 && 1 <= m2 <= 12
    ensures |MonthPrefix(y1, m1)| == 7 && |MonthPrefix(y2, m2)| == 7
    ensures LexLess(MonthPrefix(y1, m1), MonthPrefix(y2, m2)) <==> y1 < y2 || (y1 == y2 && m1 < m2)
    ensures MonthPrefix(y1, m1) == MonthPrefix(y2, m2) <==> y1 == y2 && m1 == m2
  {
    PadLength(y1, 4); PadLength(y2, 4);
    PadLength(m1, 2); PadLength(m2, 2);
    PadOrder(y1, y2, 4);
    PadOrder(m1, m2, 2);
    var a, b := MonthPrefix(y1, m1), MonthPrefix(y2, m2);
    assert a == Pad(y1, 4) + ("-" + Pad(m1, 2)) && b == Pad(y2, 4) + ("-" + Pad(m2, 2));
    LexLessConcat(Pad(y1, 4), "-" + Pad(m1, 2), Pad(y2, 4), "-" + Pad(m2, 2));
    LexLessConcat("-", Pad(m1, 2), "-", Pad(m2, 2));
    LexLessIrreflexive("-");
    if a == b {
      assert a[..4] == Pad(y1, 4) && b[..4] == Pad(y2, 4);
      assert a[5..] == Pad(m1, 2) && b[5..] == Pad(m2, 2);
    }
  }

  /** The tail "-dd" of a key against the bounds "-01" and "-31". */
  lemma DayTailOrder(day: nat)
    requires 1 <= day <= 31
    ensures LexLe("-01", "-" + Pad(day, 2)) && LexLe("-" + Pad(day, 2), "-31")
  {
    PadOrder(1, day, 2);
    PadOrder(day, 31, 2);
    assert Pad(1, 2) == "01" && Pad(31, 2) == "31";
    LexLessConcat("-", Pad(1, 2), "-", Pad(day, 2));
    LexLessConcat("-", Pad(day, 2), "-", Pad(31, 2));
    assert "-01" == "-" + Pad(1, 2) && "-31" == "-" + Pad(31, 2);
  }

  /** The string window of a month holds exactly the canonical keys of that month's days. */
  lemma MonthWindowExact(d: Date, year: nat, month: nat)
    requires Valid(d) && 1 <= year <= MaxYear && 1 <= month <= 12
    ensures InMonthWindow(Format(d), MonthPrefix(year, month)) <==> d.year == year && d.month == month
  {
    var p, q := MonthPrefix(year, month), MonthPrefix(d.year, d.month);
    var tail := "-" + Pad(d.day, 2);
    FormatSplit(d);
    MonthPrefixOrder(year, month, d.year, d.month);
    MonthPrefixOrder(d.year, d.month, year, month);
    DayTailOrder(d.day);
    LexLessConcat(p, "-01", q, tail);
    LexLessConcat(q, tail, p, "-31");
    if p + "-01" == q + tail {
      assert (p + "-01")[..7] == p && (q + tail)[..7] == q;
    }
    if q + tail == p + "-31" {
      assert (p + "-31")[..7] == p && (q + tail)[..7] == q;
    }
  }
}
