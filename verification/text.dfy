/**
  Python string semantics the core relies on: code-point lexicographic order (`<`, `<=`
  on `str`), integer formatting (`str(n)`, `f"{n:02d}"`, `f"{n:04d}"`), and the
  `strip`, `split`, `lower` and `startswith` methods.
*/
module Text {

  // ---------------------------------------------------------------------------
  // Lexicographic order, as Python compares two `str` values
  // ---------------------------------------------------------------------------

  /** Python's `a < b` on strings: code points compared left to right, a proper prefix first. */
  predicate LexLess(a: string, b: string)
    decreases |a|
  {
    if |b| == 0 then false
    else if |a| == 0 then true
    else if a[0] != b[0] then a[0] < b[0]
    else LexLess(a[1..], b[1..])
  }

  /** Python's `a <= b` on strings. */
  predicate LexLe(a: string, b: string)
  {
    a == b || LexLess(a, b)
  }

  lemma {:induction false} LexLessIrreflexive(a: string)
    ensures !LexLess(a, a)
    decreases |a|
  {
    if |a| > 0 {
      LexLessIrreflexive(a[1..]);
    }
  }

  lemma {:induction false} LexLessTransitive(a: string, b: string, c: string)
    requires LexLess(a, b) && LexLess(b, c)
    ensures LexLess(a, c)
    decreases |a|
  {
    if |a| > 0 && a[0] == b[0] && b[0] == c[0] {
      LexLessTransitive(a[1..], b[1..], c[1..]);
    }
  }

  lemma {:induction false} LexLessTotal(a: string, b: string)
    requires a != b
    ensures LexLess(a, b) != LexLess(b, a)
    decreases |a|
  {
    if |a| > 0 && |b| > 0 && a[0] == b[0] {
      assert a == [a[0]] + a[1..] && b == [b[0]] + b[1..];
      LexLessTotal(a[1..], b[1..]);
    }
  }

  lemma LexLeTransitive(a: string, b: string, c: string)
    requires LexLe(a, b) && LexLe(b, c)
    ensures LexLe(a, c)
  {
    if a != b && b != c {
      LexLessTransitive(a, b, c);
    }
  }

  lemma LexLeAntisymmetric(a: string, b: string)
    requires LexLe(a, b) && LexLe(b, a)
    ensures a == b
  {
    if a != b {
      LexLessTotal(a, b);
    }
  }

  /** `a > b` in Python is exactly "not `a <= b`". */
  lemma LexLessNotLe(a: string, b: string)
    ensures LexLess(b, a) <==> !LexLe(a, b)
  {
    if a == b {
      LexLessIrreflexive(a);
    } else {
      LexLessTotal(a, b);
    }
  }

  /** Comparing two concatenations whose first parts have equal length: the first parts decide, unless they are equal. */
  lemma {:induction false} LexLessConcat(p: string, s: string, q: string, t: string)
    requires |p| == |q|
    ensures LexLess(p + s, q + t) <==> LexLess(p, q) || (p == q && LexLess(s, t))
    decreases |p|
  {
    if |p| > 0 {
      assert (p + s)[0] == p[0] && (q + t)[0] == q[0];
      assert (p + s)[1..] == p[1..] + s && (q + t)[1..] == q[1..] + t;
      LexLessConcat(p[1..], s, q[1..], t);
      if p[0] == q[0] {
        assert p == [p[0]] + p[1..] && q == [q[0]] + q[1..];
      }
    } else {
      assert p + s == s && q + t == t;
    }
  }

  // ---------------------------------------------------------------------------
  // Decimal formatting: `str(n)` and `f"{n:0Wd}"`
  // ---------------------------------------------------------------------------

  function Digit(n: nat): (c: char)
    requires n < 10
  {
    ('0' as int + n) as char
  }

  predicate IsDigit(c: char)
  {
    '0' <= c <= '9'
  }

  function DigitValue(c: char): (n: nat)
    requires IsDigit(c)
    ensures n < 10 && Digit(n) == c
  {
    c as int - '0' as int
  }

  function Zeros(k: nat): (s: string)
  {
    seq(k, _ => '0')
  }

  function Pow10(w: nat): (p: nat)
    ensures p >= 1
  {
    if w == 0 then 1 else 10 * Pow10(w - 1)
  }

  /** Python's `f"{n:0{w}d}"` for a non-negative n: its decimal digits, left-padded with
      zeros to at least w characters. `Pad(n, 0)` is `str(n)`. */
  function Pad(n: nat, w: nat): string
    decreases n
  {
    if n < 10 then Zeros(if w > 0 then w - 1 else 0) + [Digit(n)]
    else Pad(n / 10, if w > 0 then w - 1 else 0) + [Digit(n % 10)]
  }

  /** `str(n)`. */
  function Decimal(n: nat): string
  {
    Pad(n, 0)
  }

  /** Peeling off the last digit: valid whenever the last digit is not the only one. */
  lemma PadStep(n: nat, w: nat)
    requires n >= 10 || w >= 2
    ensures Pad(n, w) == Pad(n / 10, if w > 0 then w - 1 else 0) + [Digit(n % 10)]
  {
    if n < 10 {
      assert Pad(0, w - 1) == Zeros(w - 2) + ['0'];
      assert Zeros(w - 2) + ['0'] == Zeros(w - 1);
    }
  }

  lemma {:induction false} PadLength(n: nat, w: nat)
    requires w >= 1 && n < Pow10(w)
    ensures |Pad(n, w)| == w
    decreases w
  {
    if w >= 2 {
      PadStep(n, w);
      PadLength(n / 10, w - 1);
    }
  }

  /** Fixed-width zero-padded numbers compare as strings exactly as they compare as numbers. */
  lemma {:induction false} PadOrder(a: nat, b: nat, w: nat)
    requires w >= 1 && a < Pow10(w) && b < Pow10(w)
    ensures LexLess(Pad(a, w), Pad(b, w)) <==> a < b
    ensures Pad(a, w) == Pad(b, w) <==> a == b
    decreases w
  {
    if w == 1 {
      assert Pad(a, w) == [Digit(a)] && Pad(b, w) == [Digit(b)];
      assert LexLess([Digit(a)], [Digit(b)]) <==> Digit(a) < Digit(b) by {
        assert [Digit(a)][1..] == [];
      }
    } else {
      PadStep(a, w);
      PadStep(b, w);
      PadLength(a / 10, w - 1);
      PadLength(b / 10, w - 1);
      PadOrder(a / 10, b / 10, w - 1);
      LexLessConcat(Pad(a / 10, w - 1), [Digit(a % 10)], Pad(b / 10, w - 1), [Digit(b % 10)]);
      assert LexLess([Digit(a % 10)], [Digit(b % 10)]) <==> a % 10 < b % 10 by {
        assert [Digit(a % 10)][1..] == [];
      }
      if Pad(a, w) == Pad(b, w) {
        var pa, pb := Pad(a / 10, w - 1), Pad(b / 10, w - 1);
        assert (pa + [Digit(a % 10)])[..w - 1] == pa;
        assert (pb + [Digit(b % 10)])[..w - 1] == pb;
        assert (pa + [Digit(a % 10)])[w - 1] == Digit(a % 10);
      }
    }
  }

  /** The four digits of a year below 10000, most significant first. */
  lemma Pad4Digits(n: nat)
    requires n < 10000
    ensures Pad(n, 4) == [Digit(n / 1000), Digit(n / 100 % 10), Digit(n / 10 % 10), Digit(n % 10)]
  {
    PadStep(n, 4);
    PadStep(n / 10, 3);
    PadStep(n / 100, 2);
    assert n / 10 / 10 == n / 100 && n / 100 / 10 == n / 1000;
    assert Pad(n / 1000, 1) == [Digit(n / 1000)];
  }

  /** The two digits of a number below 100. */
  lemma Pad2Digits(n: nat)
    requires n < 100
    ensures Pad(n, 2) == [Digit(n / 10), Digit(n % 10)]
  {
    PadStep(n, 2);
    assert Pad(n / 10, 1) == [Digit(n / 10)];
  }

  /** A year of four digits prints as itself: `str(y) == f"{y:04d}"`. */
  lemma DecimalFourDigits(y: nat)
    requires 1000 <= y <= 9999
    ensures Decimal(y) == Pad(y, 4)
  {
    PadStep(y, 0);
    PadStep(y, 4);
    PadStep(y / 10, 0);
    PadStep(y / 10, 3);
    PadStep(y / 100, 0);
    PadStep(y / 100, 2);
  }

  predicate AllDigits(s: string)
  {
    forall i :: 0 <= i < |s| ==> IsDigit(s[i])
  }

  /** `int(s)` for a string of ASCII digits (leading zeros allowed). */
  function DigitsValue(s: string): (n: nat)
    requires AllDigits(s)
    ensures n < Pow10(|s|)
  {
    if |s| == 0 then 0 else 10 * DigitsValue(s[..|s| - 1]) + DigitValue(s[|s| - 1])
  }

  /** Reading w digits and printing the number back zero-padded to w gives the same digits. */
  lemma {:induction false} PadDigitsValue(s: string)
    requires |s| >= 1 && AllDigits(s)
    ensures Pad(DigitsValue(s), |s|) == s
  {
    var n := DigitsValue(s);
    if |s| == 1 {
      assert Pad(n, 1) == [Digit(n)];
    } else {
      var init := s[..|s| - 1];
      PadStep(n, |s|);
      assert n / 10 == DigitsValue(init) && n % 10 == DigitValue(s[|s| - 1]);
      PadDigitsValue(init);
      assert s == init + [s[|s| - 1]];
    }
  }

  // ---------------------------------------------------------------------------
  // str.strip(), str.split(sep), str.lower(), str.startswith(prefix)
  // ---------------------------------------------------------------------------

  /** Python's `str.isspace()` for one character (the Unicode whitespace set). */
  predicate IsSpace(c: char)
  {
    c == ' ' || '\t' <= c <= '\r' || '\U{1c}' <= c <= '\U{1f}' || c == '\U{85}' || c == '\U{a0}'
    || c == '\U{1680}' || '\U{2000}' <= c <= '\U{200a}' || c == '\U{2028}' || c == '\U{2029}'
    || c == '\U{202f}' || c == '\U{205f}' || c == '\U{3000}'
  }

  /** The end of the run of whitespace that starts at `i`. */
  function LeadEnd(s: string, i: nat): (j: nat)
    requires i <= |s|
    ensures i <= j <= |s|
    ensures forall k :: i <= k < j ==> IsSpace(s[k])
    ensures j == |s| || !IsSpace(s[j])
    decreases |s| - i
  {
    if i < |s| && IsSpace(s[i]) then LeadEnd(s, i + 1) else i
  }

  /** The start of the run of whitespace that ends at `j`, not going below `lo`. */
  function TrailStart(s: string, lo: nat, j: nat): (k: nat)
    requires lo <= j <= |s|
    ensures lo <= k <= j
    ensures forall m :: k <= m < j ==> IsSpace(s[m])
    ensures k == lo || !IsSpace(s[k - 1])
    decreases j
  {
    if j > lo && IsSpace(s[j - 1]) then TrailStart(s, lo, j - 1) else j
  }

  /** `s.strip()`: s without its leading and trailing whitespace. */
  function Strip(s: string): (r: string)
    ensures r == [] || (!IsSpace(r[0]) && !IsSpace(r[|r| - 1]))
    ensures var i := LeadEnd(s, 0);
              i + |r| <= |s| && r == s[i..i + |r|]
              && (forall k :: 0 <= k < i ==> IsSpace(s[k]))
              && (forall k :: i + |r| <= k < |s| ==> IsSpace(s[k]))
  {
    var i := LeadEnd(s, 0);
    s[i..TrailStart(s, i, |s|)]
  }

  /** `sep.join(parts)`. */
  function Join(parts: seq<string>, sep: char): string
  {
    if |parts| == 0 then "" else if |parts| == 1 then parts[0] else parts[0] + [sep] + Join(parts[1..], sep)
  }

  /** `s.split(sep)` for a one-character separator: never empty, and the pieces contain no separator. */
  function Split(s: string, sep: char): (r: seq<string>)
    ensures |r| >= 1
    ensures forall i :: 0 <= i < |r| ==> sep !in r[i]
  {
    if |s| == 0 then [""]
    else if s[0] == sep then [""] + Split(s[1..], sep)
    else
      var rest := Split(s[1..], sep);
      [[s[0]] + rest[0]] + rest[1..]
  }

  /** Splitting and joining back with the same separator gives the original string. */
  lemma {:induction false} SplitJoin(s: string, sep: char)
    ensures Join(Split(s, sep), sep) == s
  {
    if |s| > 0 {
      SplitJoin(s[1..], sep);
      var rest := Split(s[1..], sep);
      if s[0] == sep {
        assert Split(s, sep)[1..] == rest;
        assert s == [sep] + s[1..];
      } else {
        var r := Split(s, sep);
        if |rest| == 1 {
          assert r == [[s[0]] + rest[0]];
        } else {
          assert r[1..] == rest[1..];
          assert Join(rest, sep) == rest[0] + [sep] + Join(rest[1..], sep);
        }
        assert s == [s[0]] + s[1..];
      }
    }
  }

  lemma {:induction false} SplitNoSeparator(p: string, sep: char)
    requires sep !in p
    ensures Split(p, sep) == [p]
  {
    if |p| > 0 {
      SplitNoSeparator(p[1..], sep);
      assert p == [p[0]] + p[1..];
    }
  }

  lemma {:induction false} SplitAfterPiece(p: string, t: string, sep: char)
    requires sep !in p
    ensures Split(p + [sep] + t, sep) == [p] + Split(t, sep)
  {
    var s := p + [sep] + t;
    if |p| == 0 {
      assert s == [sep] + t && s[1..] == t;
    } else {
      assert s[0] == p[0] && s[1..] == p[1..] + [sep] + t;
      SplitAfterPiece(p[1..], t, sep);
      assert p == [p[0]] + p[1..];
    }
  }

  /** Joining pieces free of the separator and splitting again gives the pieces back. */
  lemma {:induction false} JoinSplit(parts: seq<string>, sep: char)
    requires |parts| >= 1 && forall i :: 0 <= i < |parts| ==> sep !in parts[i]
    ensures Split(Join(parts, sep), sep) == parts
  {
    if |parts| == 1 {
      SplitNoSeparator(parts[0], sep);
    } else {
      JoinSplit(parts[1..], sep);
      SplitAfterPiece(parts[0], Join(parts[1..], sep), sep);
      assert parts == [parts[0]] + parts[1..];
    }
  }

  /** A string without surrounding whitespace is its own `strip()`. */
  lemma StripStripped(s: string)
    requires s != [] && !IsSpace(s[0]) && !IsSpace(s[|s| - 1])
    ensures Strip(s) == s
  {
    assert s[0..|s|] == s;
  }

  /** `c.lower()` for ASCII letters; every other character is left alone. */
  function LowerChar(c: char): char
  {
    if 'A' <= c <= 'Z' then (c as int + 32) as char else c
  }

  /** `s.lower()` (ASCII letters). */
  function Lower(s: string): (r: string)
    ensures |r| == |s|
    ensures forall i :: 0 <= i < |s| ==> r[i] == LowerChar(s[i])
  {
    seq(|s|, i requires 0 <= i < |s| => LowerChar(s[i]))
  }

  /** `s.startswith(prefix)`. */
  predicate StartsWith(s: string, prefix: string)
  {
    |prefix| <= |s| && s[..|prefix|] == prefix
  }
}
