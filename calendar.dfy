/**
 * Calendar dates as (year, month, day) in the proleptic Gregorian calendar, the
 * chronological order on them, and the ISO 8601 text that `Date.prototype.toISOString`
 * gives for the UTC midnight of a date.
 */
module Calendar {
  import opened JsText

  datatype Date = Date(year: int, month: int, day: int)

  predicate IsLeapYear(y: int) {
    (y % 4 == 0 && y % 100 != 0) || y % 400 == 0
  }

  function DaysInMonth(y: int, m: int): (n: int)
    requires 1 <= m <= 12
    ensures 28 <= n <= 31
  {
    if m == 2 then (if IsLeapYear(y) then 29 else 28)
    else if m == 4 || m == 6 || m == 9 || m == 11 then 30
    else 31
  }

  /** The date names a day of the calendar (what `dayjs(...).isValid()` accepts). */
  predicate ValidDate(d: Date) {
    1 <= d.month <= 12 && 1 <= d.day <= DaysInMonth(d.year, d.month)
  }

  /** `a` is the same day as `b` or an earlier one. */
  predicate OnOrBefore(a: Date, b: Date) {
    a.year < b.year
    || (a.year == b.year && (a.month < b.month || (a.month == b.month && a.day <= b.day)))
  }

  /** The same month and day, `k` years later. */
  function AddYears(d: Date, k: int): Date {
    d.(year := d.year + k)
  }

  /** Number of anniversaries of `from` reached by `to`, for `from` not after `to`. */
  function WholeYears(from: Date, to: Date): int {
    var reachedAnniversary := to.month > from.month || (to.month == from.month && to.day >= from.day);
    to.year - from.year - (if reachedAnniversary then 0 else 1)
  }

  /** `WholeYears` is the one count `k` whose anniversary is reached and the next one is not. */
  lemma WholeYearsIsAnniversaryCount(from: Date, to: Date, k: int)
    requires OnOrBefore(from, to)
    ensures WholeYears(from, to) >= 0
    ensures OnOrBefore(AddYears(from, WholeYears(from, to)), to)
    ensures !OnOrBefore(AddYears(from, WholeYears(from, to) + 1), to)
    ensures OnOrBefore(AddYears(from, k), to) && !OnOrBefore(AddYears(from, k + 1), to)
            ==> k == WholeYears(from, to)
  {
  }

  function PadStart(s: string, width: nat): (r: string)
    ensures |r| == if |s| < width then width else |s|
    decreases width - |s|
  {
    if |s| < width then PadStart("0" + s, width) else s
  }

  /** The digits of a year as `toISOString` writes them: four digits, or a sign and six. */
  function IsoYear(y: int): string {
    if 0 <= y <= 9999 then PadStart(NatToString(y), 4)
    else if y < 0 then "-" + PadStart(NatToString(-y), 6)
    else "+" + PadStart(NatToString(y), 6)
  }

  /** `toISOString()` of the UTC midnight of a valid date. */
  function ToIsoString(d: Date): string
    requires ValidDate(d)
  {
    IsoYear(d.year) + "-" + PadStart(NatToString(d.month), 2) + "-" + PadStart(NatToString(d.day), 2)
    + "T00:00:00.000Z"
  }

  /** Reads the date back from the first ten characters of a four-digit-year ISO string. */
  function ParseIsoDate(s: string): Date
    requires |s| >= 10
  {
    Date(ParseDecimal(s[..4]), ParseDecimal(s[5..7]), ParseDecimal(s[8..10]))
  }

  lemma {:induction false} LeadingZeroesDoNotCount(s: string, width: nat)
    ensures ParseDecimal(PadStart(s, width)) == ParseDecimal(s)
    decreases width - |s|
  {
    if |s| < width {
      LeadingZeroesDoNotCount("0" + s, width);
      LeadingZeroDoesNotCount(s);
    }
  }

  lemma {:induction false} LeadingZeroDoesNotCount(s: string)
    ensures ParseDecimal("0" + s) == ParseDecimal(s)
  {
    if s != [] {
      assert ("0" + s)[..|"0" + s| - 1] == "0" + s[..|s| - 1];
      LeadingZeroDoesNotCount(s[..|s| - 1]);
    }
  }

  lemma PaddedNumber(n: nat, width: nat)
    requires NatToString(n) != [] && |NatToString(n)| <= width
    ensures |PadStart(NatToString(n), width)| == width
    ensures ParseDecimal(PadStart(NatToString(n), width)) == n
  {
    LeadingZeroesDoNotCount(NatToString(n), width);
    NatToStringRoundTrip(n);
  }

  /**
   * For years 0 to 9999 the ISO text is 24 characters long and its date part reads
   * back as the date it was made from.
   */
  lemma IsoStringRoundTrip(d: Date)
    requires ValidDate(d) && 0 <= d.year <= 9999
    ensures |ToIsoString(d)| == 24
    ensures ParseIsoDate(ToIsoString(d)) == d
  {
    assert Pow10(2) == 100 && Pow10(4) == 10000;
    DigitsWithin(d.year, 4);
    DigitsWithin(d.month, 2);
    DigitsWithin(d.day, 2);
    PaddedNumber(d.year, 4);
    PaddedNumber(d.month, 2);
    PaddedNumber(d.day, 2);
    IsoFieldPositions(PadStart(NatToString(d.year), 4), PadStart(NatToString(d.month), 2),
                      PadStart(NatToString(d.day), 2));
  }

  /** Where the year, month and day sit in an ISO string with a four-digit year. */
  lemma IsoFieldPositions(y: string, m: string, dd: string)
    requires |y| == 4 && |m| == 2 && |dd| == 2
    ensures var s := y + "-" + m + "-" + dd + "T00:00:00.000Z";
            |s| == 24 && s[..4] == y && s[5..7] == m && s[8..10] == dd
  {
    var s := y + "-" + m + "-" + dd + "T00:00:00.000Z";
    assert s[..4] == y;
    assert s[5..7] == m;
    assert s[8..10] == dd;
  }

  function Pow10(k: nat): nat {
    if k == 0 then 1 else 10 * Pow10(k - 1)
  }

  /** A number below 10^width has at most `width` decimal digits. */
  lemma {:induction false} DigitsWithin(n: nat, width: nat)
    requires width >= 1 && n < Pow10(width)
    ensures |NatToString(n)| <= width
  {
    if n >= 10 {
      assert n / 10 < Pow10(width - 1);
      DigitsWithin(n / 10, width - 1);
    }
  }
}
