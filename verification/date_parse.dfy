/**
  `datetime.strptime(s, "%Y-%m-%d")` as CPython's `_strptime` performs it: the format
  becomes the regular expression
      (?P<Y>\d\d\d\d)-(?P<m>1[0-2]|0[1-9]|[1-9])-(?P<d>3[01]|[12]\d|0[1-9]|[1-9]| [1-9])
  matched from the start of `s`; text left after the match, year 0 and a day past the end
  of the month raise ValueError. So a one-digit month or day ("2026-3-5") and a
  space-padded day ("2026-03- 5") are accepted: the check is not "exactly YYYY-MM-DD".
*/
module DateParse {
  import opened Wrappers
  import opened Text
  import opened DateKeys

  /** The `%m` group at position p: (month, characters taken), first matching alternative. */
  function MonthToken(s: string, p: nat): (r: Option<(int, nat)>)
    ensures r.Some? ==> 1 <= r.value.0 <= 12 && 1 <= r.value.1 <= 2 && p + r.value.1 <= |s|
  {
    if p + 1 < |s| && s[p] == '1' && '0' <= s[p + 1] <= '2' then Some((10 + DigitValue(s[p + 1]), 2))
    else if p + 1 < |s| && s[p] == '0' && '1' <= s[p + 1] <= '9' then Some((DigitValue(s[p + 1]), 2))
    else if p < |s| && '1' <= s[p] <= '9' then Some((DigitValue(s[p]), 1))
    else None
  }

  /** The `%d` group at position p: (day, characters taken), first matching alternative. */
  function DayToken(s: string, p: nat): (r: Option<(int, nat)>)
    ensures r.Some? ==> 1 <= r.value.0 <= 31 && 1 <= r.value.1 <= 2 && p + r.value.1 <= |s|
  {
    if p + 1 < |s| && s[p] == '3' && '0' <= s[p + 1] <= '1' then Some((30 + DigitValue(s[p + 1]), 2))
    else if p + 1 < |s| && '1' <= s[p] <= '2' && IsDigit(s[p + 1]) then Some((10 * DigitValue(s[p]) + DigitValue(s[p + 1]), 2))
    else if p + 1 < |s| && s[p] == '0' && '1' <= s[p + 1] <= '9' then Some((DigitValue(s[p + 1]), 2))
    else if p < |s| && '1' <= s[p] <= '9' then Some((DigitValue(s[p]), 1))
    else if p + 1 < |s| && s[p] == ' ' && '1' <= s[p + 1] <= '9' then Some((DigitValue(s[p + 1]), 2))
    else None
  }

  /** `datetime.strptime(s, "%Y-%m-%d").date()`, or None where it raises ValueError. */
  function Strptime(s: string): (r: Option<Date>)
    ensures r.Some? ==> Valid(r.value)
  {
    if |s| < 5 || !IsDigit(s[0]) || !IsDigit(s[1]) || !IsDigit(s[2]) || !IsDigit(s[3]) || s[4] != '-' then None
    else
      var y := 1000 * DigitValue(s[0]) + 100 * DigitValue(s[1]) + 10 * DigitValue(s[2]) + DigitValue(s[3]);
      match MonthToken(s, 5)
      case None => None
      case Some((m, ml)) =>
        if 5 + ml >= |s| || s[5 + ml] != '-' then None
        else
          match DayToken(s, 6 + ml)
          case None => None
          case Some((d, dl)) =>
            if 6 + ml + dl != |s| then None
            else if y == 0 || d > DaysInMonth(y, m) then None
            else Some(Date(y, m, d))
  }

  lemma YearDigits(y: nat)
    requires y < 10000
    ensures 1000 * (y / 1000) + 100 * (y / 100 % 10) + 10 * (y / 10 % 10) + y % 10 == y
  {
    var q1, r0 := y / 10, y % 10;
    var q2, r1 := q1 / 10, q1 % 10;
    var q3, r2 := q2 / 10, q2 % 10;
    assert y == 10 * q1 + r0 && q1 == 10 * q2 + r1 && q2 == 10 * q3 + r2;
    assert y == 100 * q2 + (10 * r1 + r0) && 0 <= 10 * r1 + r0 < 100;
    assert y / 100 == q2;
    assert y == 1000 * q3 + (100 * r2 + 10 * r1 + r0) && 0 <= 100 * r2 + 10 * r1 + r0 < 1000;
    assert y / 1000 == q3;
  }

  lemma MonthTokenOfPad(s: string, p: nat, m: int)
    requires 1 <= m <= 12 && p + 1 < |s| && s[p] == Digit(m / 10) && s[p + 1] == Digit(m % 10)
    ensures MonthToken(s, p) == Some((m, 2))
  {
  }

  lemma DayTokenOfPad(s: string, p: nat, d: int)
    requires 1 <= d <= 31 && p + 1 < |s| && s[p] == Digit(d / 10) && s[p + 1] == Digit(d % 10)
    ensures DayToken(s, p) == Some((d, 2))
  {
  }

  /** Every key the system writes is read back as the same day. */
  lemma StrptimeFormat(d: Date)
    requires Valid(d)
    ensures Strptime(Format(d)) == Some(d)
  {
    var s := Format(d);
    FormatChars(d);
    YearDigits(d.year);
    MonthTokenOfPad(s, 5, d.month);
    DayTokenOfPad(s, 8, d.day);
  }

  /** The ten characters of a key: four year digits, a dash, two month digits, a dash, two day digits. */
  lemma FormatChars(d: Date)
    requires Valid(d)
    ensures var s := Format(d);
      && |s| == 10 && s[4] == '-' && s[7] == '-'
      && s[0] == Digit(d.year / 1000) && s[1] == Digit(d.year / 100 % 10)
      && s[2] == Digit(d.year / 10 % 10) && s[3] == Digit(d.year % 10)
      && s[5] == Digit(d.month / 10) && s[6] == Digit(d.month % 10)
      && s[8] == Digit(d.day / 10) && s[9] == Digit(d.day % 10)
  {
    Pad4Digits(d.year);
    Pad2Digits(d.month);
    Pad2Digits(d.day);
  }

  /** A key is canonical when it is exactly the `YYYY-MM-DD` form of the day it parses to. */
  predicate IsCanonicalKey(s: string)
  {
    Strptime(s).Some? && s == Format(Strptime(s).value)
  }

  /** Canonical keys are exactly the formatted representable days. */
  lemma CanonicalKeyIff(s: string)
    ensures IsCanonicalKey(s) <==> exists d :: Valid(d) && s == Format(d)
  {
    if d :| Valid(d) && s == Format(d) {
      StrptimeFormat(d);
    }
  }

  /** strptime's check is looser than `YYYY-MM-DD`: it accepts "2026-3-5", which is not a canonical key. */
  lemma StrptimeAcceptsUnpadded()
    ensures Strptime("2026-3-5") == Some(Date(2026, 3, 5))
    ensures !IsCanonicalKey("2026-3-5")
  {
    var d := Date(2026, 3, 5);
    FormatLength(d);
    assert |"2026-3-5"| == 8;
  }
}
