/**
  Calendar dates as the log engine uses them (github.com/golang-sql/civil): today's date, the
  day before it, the `YYYY-MM-DD` text written at the front of every log file name
  (`civil.Date.String`, which formats with `%04d-%02d-%02d`) and its inverse, Go's
  `time.Parse(time.DateOnly, s)`, which accepts exactly four, two and two digits and rejects
  impossible days.
*/
module Dates {
  import opened Wrappers

  datatype Date = Date(year: int, month: int, day: int)

  predicate IsLeap(y: int)
  {
    y % 4 == 0 && (y % 100 != 0 || y % 400 == 0)
  }

  function DaysIn(month: int, year: int): int
    requires 1 <= month <= 12
  {
    if month == 2 then (if IsLeap(year) then 29 else 28)
    else if month == 4 || month == 6 || month == 9 || month == 11 then 30
    else 31
  }

  predicate Valid(d: Date)
  {
    1 <= d.month <= 12 && 1 <= d.day <= DaysIn(d.month, d.year)
  }

  /** Calendar order on dates. */
  predicate Before(a: Date, b: Date)
  {
    a.year < b.year
    || (a.year == b.year && a.month < b.month)
    || (a.year == b.year && a.month == b.month && a.day < b.day)
  }

  /** The calendar day before `d`, as `AddDate(0, 0, -1)` normalises it. */
  function PrevDay(d: Date): (p: Date)
    requires Valid(d)
    ensures Valid(p) && Before(p, d)
  {
    if d.day > 1 then Date(d.year, d.month, d.day - 1)
    else if d.month > 1 then Date(d.year, d.month - 1, DaysIn(d.month - 1, d.year))
    else Date(d.year - 1, 12, 31)
  }

  /** The date `n` days before `d`: `civil.DateOf(now.AddDate(0, 0, -n))`. */
  function DaysBefore(d: Date, n: nat): (r: Date)
    requires Valid(d)
    ensures Valid(r)
  {
    if n == 0 then d else PrevDay(DaysBefore(d, n - 1))
  }

  /** Going further back always gives an earlier date, so the days of a window are distinct. */
  lemma {:induction false} DaysBeforeStrictlyEarlier(d: Date, i: nat, j: nat)
    requires Valid(d) && i < j
    ensures Before(DaysBefore(d, j), DaysBefore(d, i))
    decreases j
  {
    if j == i + 1 {
    } else {
      DaysBeforeStrictlyEarlier(d, i, j - 1);
    }
  }

  // ---------------------------------------------------------------- decimal digits

  predicate IsDigit(c: char)
  {
    '0' <= c <= '9'
  }

  predicate AllDigits(s: string)
  {
    forall i :: 0 <= i < |s| ==> IsDigit(s[i])
  }

  function Digit(n: int): char
    requires 0 <= n < 10
  {
    ('0' as int + n) as char
  }

  function DigitValue(c: char): int
  {
    c as int - '0' as int
  }

  function Pow10(w: nat): (p: nat)
    ensures p > 0
  {
    if w == 0 then 1 else 10 * Pow10(w - 1)
  }

  /** The `w` least significant decimal digits of `n`, most significant first. */
  function FixedDigits(n: nat, w: nat): (s: string)
    ensures |s| == w
  {
    if w == 0 then [] else FixedDigits(n / 10, w - 1) + [Digit(n % 10)]
  }

  function NumDigits(n: nat): nat
  {
    if n < 10 then 1 else 1 + NumDigits(n / 10)
  }

  /** fmt's `%0<w>d`: the sign, then the digits left-padded with zeros to width `w` overall. */
  function ZeroPad(n: int, w: nat): string
    decreases if n < 0 then 1 else 0
  {
    if n < 0 then "-" + ZeroPad(-n, if w > 0 then w - 1 else 0)
    else FixedDigits(n, if NumDigits(n) > w then NumDigits(n) else w)
  }

  /** fmt's `%v` of a non-negative integer. */
  function Decimal(n: nat): string
  {
    ZeroPad(n, 0)
  }

  /** The value of a string of decimal digits. */
  function ParseFixed(s: string): int
  {
    if s == [] then 0 else ParseFixed(s[..|s| - 1]) * 10 + DigitValue(s[|s| - 1])
  }

  // ---------------------------------------------------------------- the date text

  /** civil.Date.String. */
  function Format(d: Date): string
  {
    ZeroPad(d.year, 4) + "-" + ZeroPad(d.month, 2) + "-" + ZeroPad(d.day, 2)
  }

  /** time.Parse(time.DateOnly, s), then civil.DateOf. */
  function Parse(s: string): Option<Date>
  {
    if |s| == 10 && s[4] == '-' && s[7] == '-'
       && AllDigits(s[..4]) && AllDigits(s[5..7]) && AllDigits(s[8..])
    then
      var d := Date(ParseFixed(s[..4]), ParseFixed(s[5..7]), ParseFixed(s[8..]));
      if Valid(d) then Some(d) else None
    else None
  }

  // ---------------------------------------------------------------- digit lemmas

  lemma ModUnique(n: int, m: int, a: int, b: int)
    requires m > 0 && 0 <= b < m && n == m * a + b
    ensures n % m == b && n / m == a
  {
    var q, r := n / m, n % m;
    assert n == m * q + r;
    assert m * (a - q) == r - b;
    if a - q >= 1 {
      MulAtLeast(m, a - q);
    } else if a - q <= -1 {
      MulAtLeast(m, q - a);
    }
  }

  lemma {:induction false} MulAtLeast(m: int, k: int)
    requires m > 0 && k >= 1
    ensures m * k >= m
    decreases k
  {
    if k > 1 {
      MulAtLeast(m, k - 1);
      assert m * k == m * (k - 1) + m;
    }
  }

  /** Taking the last decimal digit off commutes with reducing modulo a power of ten. */
  lemma ModStep(n: nat, p: nat)
    requires p > 0
    ensures n % (10 * p) == 10 * ((n / 10) % p) + n % 10
  {
    var q, r := n / 10, n % 10;
    var a, b := q / p, q % p;
    assert n == 10 * q + r;
    assert q == p * a + b;
    assert 10 * q == (10 * p) * a + 10 * b;
    ModUnique(n, 10 * p, a, 10 * b + r);
  }

  lemma {:induction false} FixedDigitsRoundTrip(n: nat, w: nat)
    ensures AllDigits(FixedDigits(n, w))
    ensures ParseFixed(FixedDigits(n, w)) == n % Pow10(w)
  {
    if w > 0 {
      FixedDigitsRoundTrip(n / 10, w - 1);
      var s := FixedDigits(n, w);
      assert s[..|s| - 1] == FixedDigits(n / 10, w - 1);
      assert DigitValue(s[|s| - 1]) == n % 10;
      ModStep(n, Pow10(w - 1));
    }
  }

  lemma {:induction false} ParseFixedRoundTrip(s: string)
    requires AllDigits(s)
    ensures 0 <= ParseFixed(s) < Pow10(|s|)
    ensures FixedDigits(ParseFixed(s), |s|) == s
  {
    if s != [] {
      var init := s[..|s| - 1];
      ParseFixedRoundTrip(init);
      var p := ParseFixed(s);
      var v := DigitValue(s[|s| - 1]);
      ModUnique(p, 10, ParseFixed(init), v);
      assert Digit(v) == s[|s| - 1];
      assert s == init + [s[|s| - 1]];
    }
  }

  lemma {:induction false} NumDigitsBound(n: nat, w: nat)
    requires w >= 1 && n < Pow10(w)
    ensures NumDigits(n) <= w
  {
    if n >= 10 {
      NumDigitsBound(n / 10, w - 1);
    }
  }

  lemma SmallPad(n: int, w: nat)
    requires w >= 1 && 0 <= n < Pow10(w)
    ensures ZeroPad(n, w) == FixedDigits(n, w)
  {
    NumDigitsBound(n, w);
  }

  lemma SmallMod(n: int, w: nat)
    requires 0 <= n < Pow10(w)
    ensures n % Pow10(w) == n
  {
    ModUnique(n, Pow10(w), 0, n);
  }

  /** Format writes ten characters with the dashes at positions 4 and 7 for four-digit years. */
  lemma FormatShape(d: Date)
    requires Valid(d) && 0 <= d.year < 10000
    ensures |Format(d)| == 10 && Format(d)[4] == '-' && Format(d)[7] == '-'
    ensures Format(d)[..4] == FixedDigits(d.year, 4)
    ensures Format(d)[5..7] == FixedDigits(d.month, 2)
    ensures Format(d)[8..] == FixedDigits(d.day, 2)
  {
    assert Pow10(4) == 10000 && Pow10(2) == 100;
    SmallPad(d.year, 4);
    SmallPad(d.month, 2);
    SmallPad(d.day, 2);
  }

  /** Parsing a formatted date gives the date back (years 0 to 9999, which Parse can read). */
  lemma ParseFormat(d: Date)
    requires Valid(d) && 0 <= d.year < 10000
    ensures Parse(Format(d)) == Some(d)
  {
    FormatShape(d);
    var s := Format(d);
    assert Pow10(4) == 10000 && Pow10(2) == 100;
    FixedDigitsRoundTrip(d.year, 4);
    FixedDigitsRoundTrip(d.month, 2);
    FixedDigitsRoundTrip(d.day, 2);
    SmallMod(d.year, 4);
    SmallMod(d.month, 2);
    SmallMod(d.day, 2);
  }

  /** Whatever Parse accepts is exactly the formatted text of what it returns. */
  lemma FormatParse(s: string)
    requires Parse(s).Some?
    ensures Format(Parse(s).value) == s
    ensures 0 <= Parse(s).value.year < 10000
  {
    var d := Parse(s).value;
    ParseFixedRoundTrip(s[..4]);
    ParseFixedRoundTrip(s[5..7]);
    ParseFixedRoundTrip(s[8..]);
    assert Pow10(4) == 10000;
    FormatShape(d);
    var f := Format(d);
    assert f[..4] == s[..4] && f[5..7] == s[5..7] && f[8..] == s[8..];
    assert f == f[..4] + "-" + f[5..7] + "-" + f[8..];
    assert s == s[..4] + "-" + s[5..7] + "-" + s[8..];
  }

  /** ZeroPad writes only decimal digits and the minus sign. */
  lemma ZeroPadChars(n: int, w: nat)
    ensures forall c :: c in ZeroPad(n, w) ==> IsDigit(c) || c == '-'
    decreases if n < 0 then 1 else 0
  {
    if n < 0 {
      ZeroPadChars(-n, if w > 0 then w - 1 else 0);
    } else {
      var s := FixedDigits(n, if NumDigits(n) > w then NumDigits(n) else w);
      FixedDigitsRoundTrip(n, |s|);
      forall c | c in s ensures IsDigit(c) {
        var i :| 0 <= i < |s| && s[i] == c;
      }
    }
  }

  /**
    The date text consists of digits and dashes only, so it carries no glob metacharacter and
    no underscore.
  */
  lemma FormatChars(d: Date)
    ensures forall c :: c in Format(d) ==> IsDigit(c) || c == '-'
  {
    ZeroPadChars(d.year, 4);
    ZeroPadChars(d.month, 2);
    ZeroPadChars(d.day, 2);
  }
}
