/** Proleptic Gregorian calendar dates as Python's `datetime.date` holds them, and
    the strftime/isoformat fields the source prints them with. */
module Calendar {
  import opened Numerals

  datatype Date = Date(year: int, month: int, day: int)

  predicate IsLeapYear(y: int) {
    y % 4 == 0 && (y % 100 != 0 || y % 400 == 0)
  }

  function DaysInMonth(y: int, m: int): (n: int)
    requires 1 <= m <= 12
    ensures 28 <= n <= 31
    ensures m == 2 ==> (n == 29 <==> IsLeapYear(y))
  {
    if m == 2 then (if IsLeapYear(y) then 29 else 28)
    else if m == 4 || m == 6 || m == 9 || m == 11 then 30
    else 31
  }

  /** The dates `datetime.date` can represent: years 1 to 9999, real days of the month. */
  predicate ValidDate(d: Date) {
    1 <= d.year <= 9999 && 1 <= d.month <= 12 && 1 <= d.day <= DaysInMonth(d.year, d.month)
  }

  /** `%Y` as the C library of a Linux host prints it: the year without padding. */
  function StrfYear(d: Date): string
    requires ValidDate(d)
  {
    Numeral(d.year, 10)
  }

  /** `%m` and `%d`: two digits, zero-padded. */
  function StrfTwoDigits(n: nat): (s: string)
    requires n < 100
    ensures |s| == 2 && AllDigits(s, 10)
  {
    NumeralWidth(n, 10, 2);
    ZeroPad(n, 2)
  }

  /** `date.strftime("%Y-%m-%d")`. */
  function FormatIso(d: Date): string
    requires ValidDate(d)
  {
    StrfYear(d) + "-" + StrfTwoDigits(d.month) + "-" + StrfTwoDigits(d.day)
  }

  /** `str(date)`, i.e. `date.isoformat()`: the year is always padded to four digits. */
  function IsoFormat(d: Date): (s: string)
    requires ValidDate(d)
    ensures |s| == 10
  {
    NumeralWidth(d.year, 10, 4);
    ZeroPad(d.year, 4) + "-" + StrfTwoDigits(d.month) + "-" + StrfTwoDigits(d.day)
  }

  /** From year 1000 on, `%Y` and isoformat agree, so the two printers coincide. */
  lemma FormatIsoFromYear1000(d: Date)
    requires ValidDate(d) && d.year >= 1000
    ensures FormatIso(d) == IsoFormat(d)
  {
    NumeralWidth(d.year, 10, 3);
    NumeralWidth(d.year, 10, 4);
  }

  /** Below year 1000, `%Y` drops the leading zero, so the printers differ. */
  lemma FormatIsoBeforeYear1000(d: Date)
    requires ValidDate(d) && d.year < 1000
    ensures |FormatIso(d)| < 10
    ensures FormatIso(d) != IsoFormat(d)
  {
    NumeralWidth(d.year, 10, 3);
  }

  /** `%b` in the C locale. */
  const MonthAbbrevs: seq<string> :=
    ["Jan", "Feb", "Mar", "Apr", "May", "Jun", "Jul", "Aug", "Sep", "Oct", "Nov", "Dec"]

  function MonthAbbrev(m: int): (s: string)
    requires 1 <= m <= 12
    ensures |s| == 3
  {
    MonthAbbrevs[m - 1]
  }

  /** No two months share an abbreviation. */
  lemma MonthAbbrevInjective(m1: int, m2: int)
    requires 1 <= m1 <= 12 && 1 <= m2 <= 12
    requires MonthAbbrev(m1) == MonthAbbrev(m2)
    ensures m1 == m2
  {
    var s := MonthAbbrev(m1);
    assert s[0] == MonthAbbrev(m2)[0] && s[1] == MonthAbbrev(m2)[1] && s[2] == MonthAbbrev(m2)[2];
  }
}
