/**
 * The two date formats the pipeline meets: `strftime("%Y-%m-%d")`, which the
 * normaliser writes, and `strptime(s, "%m/%d/%Y")`, which the candidate
 * assembler reads. Parsing follows CPython's `_strptime` patterns
 * `%m = 1[0-2]|0[1-9]|[1-9]`, `%d = 3[01]|[12]\d|0[1-9]|[1-9]| [1-9]`,
 * `%Y = \d\d\d\d`, matched against the whole string, followed by the
 * calendar check that `datetime(year, month, day)` performs.
 */
module Calendar {
  import opened Wrappers
  import opened Text

  datatype Date = Date(year: nat, month: nat, day: nat)

  predicate IsLeapYear(y: nat) {
    y % 4 == 0 && (y % 100 != 0 || y % 400 == 0)
  }

  function DaysInMonth(y: nat, m: nat): nat
    requires 1 <= m <= 12
  {
    if m == 2 then (if IsLeapYear(y) then 29 else 28)
    else if m == 4 || m == 6 || m == 9 || m == 11 then 30
    else 31
  }

  /** What `datetime(year, month, day)` accepts (MINYEAR = 1, MAXYEAR = 9999). */
  predicate ValidDate(d: Date) {
    1 <= d.year <= 9999 && 1 <= d.month <= 12 && 1 <= d.day <= DaysInMonth(d.year, d.month)
  }

  function Zeros(k: nat): (r: string)
    ensures |r| == k && forall i :: 0 <= i < k ==> r[i] == '0'
  {
    seq(k, _ => '0')
  }

  /** A zero-padded decimal field, as `%m`, `%d` and `%Y` print. */
  function ZeroPad(n: nat, width: nat): string {
    var s := DecimalString(n);
    if |s| >= width then s else Zeros(width - |s|) + s
  }

  /** `strftime("%Y-%m-%d")`. */
  function IsoFormat(d: Date): string {
    ZeroPad(d.year, 4) + "-" + ZeroPad(d.month, 2) + "-" + ZeroPad(d.day, 2)
  }

  /** `strftime("%m/%d/%Y")`, the inverse of `ParseUsDate` on valid dates. */
  function UsFormat(d: Date): string {
    ZeroPad(d.month, 2) + "/" + ZeroPad(d.day, 2) + "/" + ZeroPad(d.year, 4)
  }

  /** `str.split(sep)`: the pieces between occurrences of `sep`; never empty. */
  function Split(s: string, sep: char): (parts: seq<string>)
    ensures |parts| >= 1
  {
    if s == [] then [""]
    else
      var rest := Split(s[1..], sep);
      if s[0] == sep then [""] + rest else [[s[0]] + rest[0]] + rest[1..]
  }

  /** The `%m` pattern `1[0-2]|0[1-9]|[1-9]`. */
  function MonthField(p: string): Option<nat> {
    if |p| == 1 && '1' <= p[0] <= '9' then Some(DigitValue(p[0]))
    else if |p| == 2 && p[0] == '0' && '1' <= p[1] <= '9' then Some(DigitValue(p[1]))
    else if |p| == 2 && p[0] == '1' && '0' <= p[1] <= '2' then Some(10 + DigitValue(p[1]))
    else None
  }

  /** The `%d` pattern `3[01]|[12]\d|0[1-9]|[1-9]| [1-9]`. */
  function DayField(p: string): Option<nat> {
    if |p| == 1 && '1' <= p[0] <= '9' then Some(DigitValue(p[0]))
    else if |p| == 2 && (p[0] == ' ' || p[0] == '0') && '1' <= p[1] <= '9' then Some(DigitValue(p[1]))
    else if |p| == 2 && '1' <= p[0] <= '2' && IsDigit(p[1]) then Some(10 * DigitValue(p[0]) + DigitValue(p[1]))
    else if |p| == 2 && p[0] == '3' && '0' <= p[1] <= '1' then Some(30 + DigitValue(p[1]))
    else None
  }

  /** The `%Y` pattern `\d\d\d\d`. */
  function YearField(p: string): Option<nat> {
    if |p| == 4 && AllDigits(p) then Some(DigitsValue(p)) else None
  }

  /**
   * `datetime.strptime(s, "%m/%d/%Y")`, with `None` where it raises. No field
   * pattern admits '/', so a full match is exactly a split into three fields
   * that each match their pattern.
   */
  function ParseUsDate(s: string): (r: Option<Date>)
    ensures r.Some? ==> ValidDate(r.value)
  {
    var parts := Split(s, '/');
    if |parts| != 3 then None
    else match (MonthField(parts[0]), DayField(parts[1]), YearField(parts[2]))
      case (Some(m), Some(d), Some(y)) =>
        if ValidDate(Date(y, m, d)) then Some(Date(y, m, d)) else None
      case _ => None
  }

  lemma {:induction false} SplitWithoutSeparator(s: string, sep: char)
    requires sep !in s
    ensures Split(s, sep) == [s]
  {
    if s != [] {
      SplitWithoutSeparator(s[1..], sep);
      assert [s[0]] + s[1..] == s;
    }
  }

  lemma {:induction false} SplitJoin(a: string, b: string, sep: char)
    requires sep !in a
    ensures Split(a + [sep] + b, sep) == [a] + Split(b, sep)
  {
    if a == [] {
      assert ([sep] + b)[1..] == b;
    } else {
      assert (a + [sep] + b)[1..] == a[1..] + [sep] + b;
      SplitJoin(a[1..], b, sep);
      assert [a[0]] + a[1..] == a;
    }
  }

  lemma ZeroPadDigits(n: nat, width: nat)
    ensures AllDigits(ZeroPad(n, width)) && |ZeroPad(n, width)| >= width
  {
    DecimalStringDigits(n);
  }

  /** A date written by the normaliser has no '/', so `strptime(.., "%m/%d/%Y")` rejects it. */
  lemma IsoFormatNeverParsesAsUs(d: Date)
    ensures ParseUsDate(IsoFormat(d)) == None
  {
    var s := IsoFormat(d);
    ZeroPadDigits(d.year, 4);
    ZeroPadDigits(d.month, 2);
    ZeroPadDigits(d.day, 2);
    assert forall i :: 0 <= i < |s| ==> s[i] != '/';
    SplitWithoutSeparator(s, '/');
  }

  lemma {:induction false} DecimalStringLength(n: nat, k: nat, bound: nat)
    requires n < bound && bound == Pow10(k) && k >= 1
    ensures |DecimalString(n)| <= k
  {
    if n >= 10 {
      assert Pow10(1) == 10;
      assert k >= 2;
      assert n / 10 < Pow10(k - 1);
      DecimalStringLength(n / 10, k - 1, Pow10(k - 1));
    }
  }

  function Pow10(k: nat): nat {
    if k == 0 then 1 else 10 * Pow10(k - 1)
  }

  lemma {:induction false} DigitsValueZeros(z: string, s: string)
    requires AllDigits(s) && forall i :: 0 <= i < |z| ==> z[i] == '0'
    ensures AllDigits(z + s) && DigitsValue(z + s) == DigitsValue(s)
  {
    if s == [] {
      assert z + s == z;
      DigitsValueOfZeros(z);
    } else {
      var t := s[..|s| - 1];
      assert (z + s)[..|z + s| - 1] == z + t;
      DigitsValueZeros(z, t);
    }
  }

  lemma {:induction false} DigitsValueOfZeros(z: string)
    requires forall i :: 0 <= i < |z| ==> z[i] == '0'
    ensures AllDigits(z) && DigitsValue(z) == 0
  {
    if z != [] {
      DigitsValueOfZeros(z[..|z| - 1]);
    }
  }

  lemma ZeroPadValue(n: nat, width: nat)
    ensures AllDigits(ZeroPad(n, width)) && DigitsValue(ZeroPad(n, width)) == n
  {
    DecimalStringValue(n);
    var s := DecimalString(n);
    if |s| < width {
      DigitsValueZeros(Zeros(width - |s|), s);
    }
  }

  lemma TwoDigitPad(n: nat)
    requires 1 <= n <= 99
    ensures ZeroPad(n, 2) == [DigitChar(n / 10), DigitChar(n % 10)]
  {
    if n >= 10 {
      assert DecimalString(n / 10) == [DigitChar(n / 10)];
    }
  }

  lemma YearPad(y: nat)
    requires 1 <= y <= 9999
    ensures YearField(ZeroPad(y, 4)) == Some(y)
  {
    DecimalStringLength(y, 4, 10000);
    ZeroPadValue(y, 4);
  }

  /** The `%m` field reads back every month it prints. */
  lemma MonthPad(m: nat)
    requires 1 <= m <= 12
    ensures MonthField(ZeroPad(m, 2)) == Some(m)
  {
    TwoDigitPad(m);
  }

  /** The `%d` field reads back every day it prints. */
  lemma DayPad(d: nat)
    requires 1 <= d <= 31
    ensures DayField(ZeroPad(d, 2)) == Some(d)
  {
    TwoDigitPad(d);
  }

  /** A zero-padded field is all digits, so it holds no '/'. */
  lemma NoSlashInPad(n: nat, width: nat)
    ensures '/' !in ZeroPad(n, width)
  {
    var s := ZeroPad(n, width);
    ZeroPadDigits(n, width);
    assert forall i :: 0 <= i < |s| ==> s[i] != '/';
  }

  /** Three fields without separators joined by it split back into those fields. */
  lemma SplitThree(a: string, b: string, c: string, sep: char)
    requires sep !in a && sep !in b && sep !in c
    ensures Split(a + [sep] + b + [sep] + c, sep) == [a, b, c]
  {
    assert a + [sep] + b + [sep] + c == a + [sep] + (b + [sep] + c);
    SplitJoin(a, b + [sep] + c, sep);
    SplitJoin(b, c, sep);
    SplitWithoutSeparator(c, sep);
  }

  /** Reading back what `strftime("%m/%d/%Y")` writes gives the same date. */
  lemma UsFormatRoundTrip(d: Date)
    requires ValidDate(d)
    ensures ParseUsDate(UsFormat(d)) == Some(d)
  {
    var m, dd, y := ZeroPad(d.month, 2), ZeroPad(d.day, 2), ZeroPad(d.year, 4);
    assert Split(UsFormat(d), '/') == [m, dd, y] by {
      NoSlashInPad(d.month, 2);
      NoSlashInPad(d.day, 2);
      NoSlashInPad(d.year, 4);
      SplitThree(m, dd, y, '/');
    }
    MonthPad(d.month);
    DayPad(d.day);
    YearPad(d.year);
  }
}
