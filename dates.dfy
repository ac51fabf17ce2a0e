/**
 * Calendar dates as pandas timestamps at midnight, their chronological order,
 * and the `YYYYMMDD` text form in which the market-data provider sends
 * `trade_date` (parsed with `%Y%m%d`, formatted with `strftime('%Y%m%d')`).
 */
module Dates {
  import opened Wrappers

  datatype Date = Date(year: int, month: int, day: int)

  /** Chronological order: by year, then month, then day. */
  predicate Before(a: Date, b: Date) {
    a.year < b.year || (a.year == b.year && (a.month < b.month || (a.month == b.month && a.day < b.day)))
  }

  predicate NotAfter(a: Date, b: Date) {
    a == b || Before(a, b)
  }

  predicate LeapYear(y: int) {
    (y % 4 == 0 && y % 100 != 0) || y % 400 == 0
  }

  function DaysInMonth(y: int, m: int): (n: int)
    requires 1 <= m <= 12
    ensures 28 <= n <= 31
  {
    if m == 2 then (if LeapYear(y) then 29 else 28)
    else if m == 4 || m == 6 || m == 9 || m == 11 then 30
    else 31
  }

  /** A day of the proleptic Gregorian calendar. */
  predicate IsCalendarDate(d: Date) {
    1 <= d.month <= 12 && 1 <= d.day <= DaysInMonth(d.year, d.month)
  }

  /** The first and last midnights a nanosecond pandas Timestamp can hold. */
  const FIRST_STAMP := Date(1677, 9, 22)
  const LAST_STAMP := Date(2262, 4, 11)

  predicate InStampRange(d: Date) {
    NotAfter(FIRST_STAMP, d) && NotAfter(d, LAST_STAMP)
  }

  // ---------------------------------------------------------------------------
  // Digit strings

  predicate IsAsciiDigit(c: char) {
    '0' <= c <= '9'
  }

  predicate AllAsciiDigits(s: string) {
    forall i :: 0 <= i < |s| ==> IsAsciiDigit(s[i])
  }

  function DigitValue(c: char): (v: nat)
    requires IsAsciiDigit(c)
    ensures v < 10
  {
    (c as int) - ('0' as int)
  }

  function DigitChar(v: nat): (c: char)
    requires v < 10
    ensures IsAsciiDigit(c) && DigitValue(c) == v
  {
    (('0' as int) + v) as char
  }

  function Pow10(n: nat): (p: nat)
    ensures p >= 1
  {
    if n == 0 then 1 else 10 * Pow10(n - 1)
  }

  /** The decimal number a run of ASCII digits spells, most significant first. */
  function Number(s: string): nat
    requires AllAsciiDigits(s)
  {
    if s == [] then 0 else 10 * Number(s[..|s| - 1]) + DigitValue(s[|s| - 1])
  }

  /** `n` written with exactly `width` digits, zero-padded on the left (`%04d`, `%02d`). */
  function Digits(n: nat, width: nat): (s: string)
    ensures |s| == width && AllAsciiDigits(s)
  {
    if width == 0 then [] else Digits(n / 10, width - 1) + [DigitChar(n % 10)]
  }

  lemma {:induction false} NumberBound(s: string)
    requires AllAsciiDigits(s)
    ensures Number(s) < Pow10(|s|)
  {
    if s != [] {
      NumberBound(s[..|s| - 1]);
    }
  }

  /** Splitting off the last decimal digit. */
  lemma LastDigit(q: nat, r: nat)
    requires r < 10
    ensures (10 * q + r) / 10 == q && (10 * q + r) % 10 == r
  {
  }

  lemma DropLastDigit(n: nat, p: nat)
    requires n < 10 * p
    ensures n / 10 < p && n == 10 * (n / 10) + n % 10
  {
  }

  lemma {:induction false} DigitsRoundTrip(n: nat, width: nat)
    requires n < Pow10(width)
    ensures Number(Digits(n, width)) == n
  {
    if width > 0 {
      var s := Digits(n, width);
      var init, last := Digits(n / 10, width - 1), DigitChar(n % 10);
      assert s == init + [last];
      assert s[..|s| - 1] == init && s[|s| - 1] == last;
      DropLastDigit(n, Pow10(width - 1));
      DigitsRoundTrip(n / 10, width - 1);
      assert Number(s) == 10 * Number(init) + DigitValue(last);
    }
  }

  lemma {:induction false} NumberRoundTrip(s: string)
    requires AllAsciiDigits(s)
    ensures Digits(Number(s), |s|) == s
  {
    if s != [] {
      var init, last := s[..|s| - 1], s[|s| - 1];
      NumberRoundTrip(init);
      var n := Number(s);
      assert n == 10 * Number(init) + DigitValue(last);
      LastDigit(Number(init), DigitValue(last));
      assert Digits(n, |s|) == Digits(Number(init), |init|) + [DigitChar(DigitValue(last))];
      assert s == init + [last];
    }
  }

  lemma ScaleDigit(d: nat, p: nat, rest: nat, last: nat)
    ensures 10 * (d * p + rest) + last == d * (10 * p) + (10 * rest + last)
  {
  }

  /** The number spelled by a digit run, split at its first digit. */
  lemma {:induction false} NumberFront(s: string)
    requires AllAsciiDigits(s) && s != []
    ensures Number(s) == DigitValue(s[0]) * Pow10(|s| - 1) + Number(s[1..])
  {
    if |s| > 1 {
      var init, tail := s[..|s| - 1], s[1..];
      NumberFront(init);
      assert init[1..] == tail[..|tail| - 1];
      assert init[0] == s[0] && tail[|tail| - 1] == s[|s| - 1];
      var d, last := DigitValue(s[0]), DigitValue(s[|s| - 1]);
      assert Number(init) == d * Pow10(|s| - 2) + Number(init[1..]);
      assert Number(tail) == 10 * Number(init[1..]) + last;
      ScaleDigit(d, Pow10(|s| - 2), Number(init[1..]), last);
    } else {
      assert s[1..] == [];
    }
  }

  // ---------------------------------------------------------------------------
  // Python's string order

  /** `s < t` on Python strings: compare code points, a proper prefix comes first. */
  predicate LexLess(s: string, t: string) {
    if s == [] then t != []
    else if t == [] then false
    else if s[0] != t[0] then s[0] < t[0]
    else LexLess(s[1..], t[1..])
  }

  predicate LexLe(s: string, t: string) {
    s == t || LexLess(s, t)
  }

  lemma {:induction false} LexLessIrreflexive(s: string)
    ensures !LexLess(s, s)
  {
    if s != [] {
      LexLessIrreflexive(s[1..]);
    }
  }

  lemma {:induction false} LexLessTrichotomy(s: string, t: string)
    ensures s == t || LexLess(s, t) || LexLess(t, s)
  {
    if s != [] && t != [] && s[0] == t[0] {
      LexLessTrichotomy(s[1..], t[1..]);
      if s[1..] == t[1..] {
        assert s == [s[0]] + s[1..] && t == [t[0]] + t[1..];
      }
    }
  }

  lemma {:induction false} LexLessTransitive(s: string, t: string, u: string)
    requires LexLess(s, t) && LexLess(t, u)
    ensures LexLess(s, u)
  {
    if s != [] && s[0] == t[0] && t[0] == u[0] {
      LexLessTransitive(s[1..], t[1..], u[1..]);
    }
  }

  /** For digit runs of one length, string order is numeric order. */
  lemma {:induction false} LexLessIsNumeric(s: string, t: string)
    requires AllAsciiDigits(s) && AllAsciiDigits(t) && |s| == |t|
    ensures LexLess(s, t) <==> Number(s) < Number(t)
  {
    if s != [] {
      NumberFront(s);
      NumberFront(t);
      NumberBound(s[1..]);
      NumberBound(t[1..]);
      LexLessIsNumeric(s[1..], t[1..]);
      LeadingDigit(DigitValue(s[0]), DigitValue(t[0]), Pow10(|s| - 1), Number(s[1..]), Number(t[1..]));
    }
  }

  /** Two numbers `a·p + x` and `b·p + y` with `x, y < p` compare by `a` and `b` first. */
  lemma LeadingDigit(a: nat, b: nat, p: nat, x: nat, y: nat)
    requires x < p && y < p
    ensures a < b ==> a * p + x < b * p + y
    ensures b < a ==> b * p + y < a * p + x
    ensures a == b ==> (a * p + x < b * p + y <==> x < y)
  {
    if a < b {
      MulMonotone(a + 1, b, p);
    } else if b < a {
      MulMonotone(b + 1, a, p);
    }
  }

  lemma MulMonotone(x: nat, y: nat, p: nat)
    requires x <= y
    ensures x * p <= y * p
  {
  }

  // ---------------------------------------------------------------------------
  // The YYYYMMDD text form

  /** `pd.to_datetime(s, format='%Y%m%d')` on one string: the date, or a parse failure. */
  function ParseYmd(s: string): (r: Option<Date>)
    ensures r.Some? ==> IsCalendarDate(r.value) && InStampRange(r.value)
  {
    if |s| == 8 && AllAsciiDigits(s) then
      var d := Date(Number(s[..4]), Number(s[4..6]), Number(s[6..]));
      if IsCalendarDate(d) && InStampRange(d) then Some(d) else None
    else None
  }

  /** `strftime('%Y%m%d')`. */
  function FormatYmd(d: Date): (s: string)
    requires d.year >= 0 && d.month >= 0 && d.day >= 0
    ensures |s| == 8 && AllAsciiDigits(s)
  {
    Digits(d.year, 4) + Digits(d.month, 2) + Digits(d.day, 2)
  }

  /** Formatting a representable date and parsing it back gives the date again. */
  lemma ParseFormat(d: Date)
    requires IsCalendarDate(d) && InStampRange(d)
    ensures ParseYmd(FormatYmd(d)) == Some(d)
  {
    var s := FormatYmd(d);
    assert s[..4] == Digits(d.year, 4);
    assert s[4..6] == Digits(d.month, 2);
    assert s[6..] == Digits(d.day, 2);
    DigitsRoundTrip(d.year, 4);
    DigitsRoundTrip(d.month, 2);
    DigitsRoundTrip(d.day, 2);
  }

  /** Eight digits are the year, month and day fields written back with their widths. */
  lemma FieldsRoundTrip(s: string)
    requires |s| == 8 && AllAsciiDigits(s)
    ensures Digits(Number(s[..4]), 4) + Digits(Number(s[4..6]), 2) + Digits(Number(s[6..]), 2) == s
  {
    var y, m, d := s[..4], s[4..6], s[6..];
    assert AllAsciiDigits(y) && AllAsciiDigits(m) && AllAsciiDigits(d);
    NumberRoundTrip(y);
    NumberRoundTrip(m);
    NumberRoundTrip(d);
    assert s == y + m + d;
  }

  /** Text that parses is exactly the formatting of the date it parses to. */
  lemma FormatParse(s: string)
    requires ParseYmd(s).Some?
    ensures FormatYmd(ParseYmd(s).value) == s
  {
    assert ParseYmd(s).value == Date(Number(s[..4]), Number(s[4..6]), Number(s[6..]));
    FieldsRoundTrip(s);
  }

  /** The key a parsed date is compared by when its text is compared. */
  lemma {:induction false} LexLessSplit(a: string, b: string, c: string, d: string)
    requires |a| == |c|
    ensures LexLess(a + b, c + d) <==> LexLess(a, c) || (a == c && LexLess(b, d))
  {
    if a == [] {
      assert a + b == b && c + d == d;
    } else {
      assert (a + b)[0] == a[0] && (c + d)[0] == c[0];
      assert (a + b)[1..] == a[1..] + b && (c + d)[1..] == c[1..] + d;
      if a[0] == c[0] {
        LexLessSplit(a[1..], b, c[1..], d);
        assert a == c <==> a[1..] == c[1..] by {
          assert a == [a[0]] + a[1..] && c == [c[0]] + c[1..];
        }
      } else {
        assert a != c;
      }
    }
  }

  /** Equal-length digit fields compare as text the way their numbers do. */
  lemma FieldOrder(a: string, b: string)
    requires |a| == |b| && AllAsciiDigits(a) && AllAsciiDigits(b)
    ensures LexLess(a, b) <==> Number(a) < Number(b)
    ensures a == b <==> Number(a) == Number(b)
  {
    LexLessIsNumeric(a, b);
    LexLessIsNumeric(b, a);
    LexLessTrichotomy(a, b);
    LexLessIrreflexive(a);
  }

  lemma TextOrderOfDates(s: string, t: string)
    requires ParseYmd(s).Some? && ParseYmd(t).Some?
    ensures LexLess(s, t) <==> Before(ParseYmd(s).value, ParseYmd(t).value)
  {
    var ys, ms, ds := s[..4], s[4..6], s[6..];
    var yt, mt, dt := t[..4], t[4..6], t[6..];
    assert s == ys + (ms + ds) && t == yt + (mt + dt);
    LexLessSplit(ys, ms + ds, yt, mt + dt);
    LexLessSplit(ms, ds, mt, dt);
    FieldOrder(ys, yt);
    FieldOrder(ms, mt);
    FieldOrder(ds, dt);
  }

  /**
   * Sorting `trade_date` text is sorting by date: for text that parses,
   * Python's string order agrees with chronological order.
   */
  lemma LexOrderIsChronological(s: string, t: string)
    requires ParseYmd(s).Some? && ParseYmd(t).Some?
    ensures LexLess(s, t) <==> Before(ParseYmd(s).value, ParseYmd(t).value)
    ensures s == t <==> ParseYmd(s).value == ParseYmd(t).value
  {
    TextOrderOfDates(s, t);
    FormatParse(s);
    FormatParse(t);
  }
}
