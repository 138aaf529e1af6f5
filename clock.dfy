/** Python `datetime` values and the three text forms the code writes and reads:
    `strftime('%Y-%m-%d')`, `strftime('%Y%m%d_%H%M%S')`, `isoformat()`, and the
    parse `strptime(s, '%Y-%m-%d')`. The clock itself is never read here: every
    "now" is a parameter. */
module Clock {
  import opened Wrappers
  import opened PyStr

  datatype DateTime = DateTime(year: nat, month: nat, day: nat, hour: nat, minute: nat, second: nat,
                               microsecond: nat)
  {
    /** The values `datetime` accepts. */
    predicate Valid() {
      && 1 <= year <= 9999 && 1 <= month <= 12 && 1 <= day <= DaysInMonth(year, month)
      && hour < 24 && minute < 60 && second < 60 && microsecond < 1000000
    }

    /** The same day at 00:00:00, as `strptime` of a date alone gives. */
    function Midnight(): DateTime {
      DateTime(year, month, day, 0, 0, 0, 0)
    }
  }

  predicate IsLeap(year: nat) {
    year % 4 == 0 && (year % 100 != 0 || year % 400 == 0)
  }

  function DaysInMonth(year: nat, month: nat): nat {
    if month == 2 then (if IsLeap(year) then 29 else 28)
    else if month in {4, 6, 9, 11} then 30
    else 31
  }

  /** `a < b` on datetimes: field by field, most significant first. */
  predicate Earlier(a: DateTime, b: DateTime) {
    if a.year != b.year then a.year < b.year
    else if a.month != b.month then a.month < b.month
    else if a.day != b.day then a.day < b.day
    else if a.hour != b.hour then a.hour < b.hour
    else if a.minute != b.minute then a.minute < b.minute
    else if a.second != b.second then a.second < b.second
    else a.microsecond < b.microsecond
  }

  // ---------------------------------------------------------------- formatting

  /** `strftime('%Y-%m-%d')` */
  function DateText(t: DateTime): string {
    ZeroPad(t.year, 4) + "-" + ZeroPad(t.month, 2) + "-" + ZeroPad(t.day, 2)
  }

  /** `strftime('%Y%m%d_%H%M%S')` */
  function CompactStamp(t: DateTime): string {
    ZeroPad(t.year, 4) + ZeroPad(t.month, 2) + ZeroPad(t.day, 2) + "_"
    + ZeroPad(t.hour, 2) + ZeroPad(t.minute, 2) + ZeroPad(t.second, 2)
  }

  /** `isoformat()`: the fraction is written only when it is not zero. */
  function IsoFormat(t: DateTime): string {
    DateText(t) + "T" + ZeroPad(t.hour, 2) + ":" + ZeroPad(t.minute, 2) + ":" + ZeroPad(t.second, 2)
    + (if t.microsecond != 0 then "." + ZeroPad(t.microsecond, 6) else "")
  }

  // ---------------------------------------------------------------- strptime('%Y-%m-%d')

  /** What `%m` matches in a ten-character date: `0[1-9]` or `1[0-2]`. */
  predicate MonthField(f: string) {
    |f| == 2 && ((f[0] == '0' && '1' <= f[1] <= '9') || (f[0] == '1' && '0' <= f[1] <= '2'))
  }

  /** What `%d` matches in a ten-character date: `3[01]`, `[12]\d`, `0[1-9]`, or a
      space followed by `[1-9]`. */
  predicate DayField(f: string) {
    && |f| == 2
    && (|| (f[0] == '3' && f[1] in "01")
        || (f[0] in "12" && IsDigit(f[1]))
        || (f[0] == '0' && '1' <= f[1] <= '9')
        || (f[0] == ' ' && '1' <= f[1] <= '9'))
  }

  function FieldValue(f: string): nat
    requires |f| == 2 && (f[0] == ' ' || IsDigit(f[0])) && IsDigit(f[1])
  {
    if f[0] == ' ' then DigitValue(f[1]) else DigitsValue(f)
  }

  /** `strptime(s, '%Y-%m-%d')` on a ten-character string; None is the ValueError
      it raises (text that does not match, year 0, or a day past the month's end). */
  function ParseDate(s: string): (r: Option<DateTime>)
    requires |s| == 10
    ensures r.Some? ==> r.value.Valid() && r.value == r.value.Midnight()
  {
    if AllDigits(s[..4]) && s[4] == '-' && MonthField(s[5..7]) && s[7] == '-' && DayField(s[8..]) then
      var year, month, day := DigitsValue(s[..4]), FieldValue(s[5..7]), FieldValue(s[8..]);
      if 1 <= year && day <= DaysInMonth(year, month) then
        DigitsFour(s[..4]);
        FieldValues(s[5..7]);
        FieldValues(s[8..]);
        Some(DateTime(year, month, day, 0, 0, 0, 0))
      else None
    else None
  }

  lemma {:induction false} DigitsBound(s: string)
    requires AllDigits(s)
    ensures |s| <= 4 ==> DigitsValue(s) <= 9999
    ensures |s| <= 3 ==> DigitsValue(s) <= 999
    ensures |s| <= 2 ==> DigitsValue(s) <= 99
    ensures |s| <= 1 ==> DigitsValue(s) <= 9
  {
    if s != [] {
      DigitsBound(s[..|s| - 1]);
    }
  }

  /** A matched month lies in 1..12 and a matched day is at least 1. */
  lemma FieldValues(f: string)
    requires MonthField(f) || DayField(f)
    ensures FieldValue(f) >= 1
    ensures MonthField(f) ==> FieldValue(f) <= 12
  {
    if f[0] != ' ' {
      assert f[..1][..0] == [];
      assert DigitsValue(f[..1]) == DigitValue(f[0]);
      assert DigitsValue(f) == DigitsValue(f[..1]) * 10 + DigitValue(f[1]);
    }
  }

  lemma DigitsFour(s: string)
    requires |s| == 4 && AllDigits(s)
    ensures DigitsValue(s) <= 9999
  {
    DigitsBound(s);
  }

  // ---------------------------------------------------------------- round trip

  lemma {:induction false} ZerosValue(z: string)
    requires forall k :: 0 <= k < |z| ==> z[k] == '0'
    ensures AllDigits(z) && DigitsValue(z) == 0
  {
    if z != [] {
      ZerosValue(z[..|z| - 1]);
    }
  }

  /** Leading zeros do not change the value of a digit string. */
  lemma {:induction false} LeadingZeros(z: string, d: string)
    requires forall k :: 0 <= k < |z| ==> z[k] == '0'
    requires AllDigits(d)
    ensures AllDigits(z + d) && DigitsValue(z + d) == DigitsValue(d)
    decreases |d|
  {
    ZerosValue(z);
    if d == [] {
      assert z + d == z;
    } else {
      var front := d[..|d| - 1];
      assert (z + d)[..|z + d| - 1] == z + front;
      LeadingZeros(z, front);
    }
  }

  /** Reading a zero-padded number back gives the number. */
  lemma ZeroPadValue(n: nat, width: nat)
    ensures DigitsValue(ZeroPad(n, width)) == n
  {
    DecimalValue(n);
    var d := Decimal(n);
    if |d| < width {
      LeadingZeros(seq(width - |d|, _ => '0'), d);
    }
  }

  lemma ZeroPadTwo(n: nat)
    requires n < 100
    ensures ZeroPad(n, 2) == [DigitChar(n / 10), DigitChar(n % 10)]
  {
    if n >= 10 {
      assert Decimal(n / 10) == [DigitChar(n / 10)];
    }
  }

  lemma ZeroPadFour(n: nat)
    requires n <= 9999
    ensures |ZeroPad(n, 4)| == 4
  {
    DecimalShort(n);
    if n >= 1000 {
      DecimalShort(n / 10);
    }
  }

  /** `strptime(d.strftime('%Y-%m-%d'), '%Y-%m-%d')` is the day `d` at midnight. */
  lemma ParseDateText(t: DateTime)
    requires t.Valid()
    ensures |DateText(t)| == 10 && ParseDate(DateText(t)) == Some(t.Midnight())
  {
    ZeroPadFour(t.year);
    ZeroPadTwo(t.month);
    ZeroPadTwo(t.day);
    var s := DateText(t);
    assert s[..4] == ZeroPad(t.year, 4);
    assert s[5..7] == ZeroPad(t.month, 2);
    assert s[8..] == ZeroPad(t.day, 2);
    ZeroPadValue(t.year, 4);
    ZeroPadValue(t.month, 2);
    ZeroPadValue(t.day, 2);
  }

  /** `strftime('%Y%m%d_%H%M%S')` is fifteen characters, an underscore after the
      date, and each field reads back as the value written. */
  lemma CompactStampFields(t: DateTime)
    requires t.Valid()
    ensures var st := CompactStamp(t);
      && |st| == 15 && st[8] == '_'
      && AllDigits(st[..8]) && AllDigits(st[9..])
      && DigitsValue(st[..4]) == t.year && DigitsValue(st[4..6]) == t.month && DigitsValue(st[6..8]) == t.day
      && DigitsValue(st[9..11]) == t.hour && DigitsValue(st[11..13]) == t.minute
      && DigitsValue(st[13..]) == t.second
  {
    ZeroPadFour(t.year);
    ZeroPadTwo(t.month);
    ZeroPadTwo(t.day);
    ZeroPadTwo(t.hour);
    ZeroPadTwo(t.minute);
    ZeroPadTwo(t.second);
    var st := CompactStamp(t);
    assert st[..4] == ZeroPad(t.year, 4);
    assert st[4..6] == ZeroPad(t.month, 2);
    assert st[6..8] == ZeroPad(t.day, 2);
    assert st[9..11] == ZeroPad(t.hour, 2);
    assert st[11..13] == ZeroPad(t.minute, 2);
    assert st[13..] == ZeroPad(t.second, 2);
    assert st[..8] == st[..4] + st[4..6] + st[6..8];
    assert st[9..] == st[9..11] + st[11..13] + st[13..];
    ZeroPadValue(t.year, 4);
    ZeroPadValue(t.month, 2);
    ZeroPadValue(t.day, 2);
    ZeroPadValue(t.hour, 2);
    ZeroPadValue(t.minute, 2);
    ZeroPadValue(t.second, 2);
  }
}
