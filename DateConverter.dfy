/** The `date` URL converter: the route pattern `\d{4}-\d{2}-\d{2}` followed by
    `datetime.strptime(value, "%Y-%m-%d").date()`, and its printer `to_url`. */
module DateConverter {
  import opened Basics
  import opened Numerals
  import opened Calendar

  /** The converter's regex, with `\d` read as the ASCII digits. */
  predicate MatchesPattern(s: string) {
    |s| == 10 && s[4] == '-' && s[7] == '-' &&
    AllDigits(s[..4], 10) && AllDigits(s[5..7], 10) && AllDigits(s[8..], 10)
  }

  /** The three numeric fields of a string of the pattern's shape. */
  function Fields(s: string): Date
    requires MatchesPattern(s)
  {
    Date(ValueOf(s[..4], 10), ValueOf(s[5..7], 10), ValueOf(s[8..], 10))
  }

  /** `to_python`: a segment that does not match the pattern, or names no real date
      (month 00 or 13, day 00, 2023-02-29, year 0000), is refused. */
  function ToPython(s: string): (r: Result<Date>)
    ensures r.Ok? ==> ValidDate(r.value)
    ensures r.Err? ==> r.error == ValidationError
  {
    if MatchesPattern(s) && ValidDate(Fields(s)) then Ok(Fields(s)) else Err(ValidationError)
  }

  /** `to_url`: `value.strftime("%Y-%m-%d")`. */
  function ToUrl(d: Date): string
    requires ValidDate(d)
  {
    FormatIso(d)
  }

  /** isoformat always parses back to the date it printed. */
  lemma {:induction false} ParseIsoFormat(d: Date)
    requires ValidDate(d)
    ensures ToPython(IsoFormat(d)) == Ok(d)
  {
    var s := IsoFormat(d);
    var y, m, dd := ZeroPad(d.year, 4), StrfTwoDigits(d.month), StrfTwoDigits(d.day);
    NumeralWidth(d.year, 10, 4);
    assert s == y + "-" + m + "-" + dd;
    assert s[..4] == y && s[5..7] == m && s[8..] == dd;
    ValueOfZeroPad(d.year, 4);
    ValueOfZeroPad(d.month, 2);
    ValueOfZeroPad(d.day, 2);
    assert MatchesPattern(s);
    assert Fields(s) == d;
  }

  /** Every accepted segment is exactly the isoformat of the date it yields. */
  lemma {:induction false} AcceptedIsIsoFormat(s: string)
    requires ToPython(s).Ok?
    ensures IsoFormat(ToPython(s).value) == s
  {
    var d := ToPython(s).value;
    ZeroPadOfValue(s[..4]);
    ZeroPadOfValue(s[5..7]);
    ZeroPadOfValue(s[8..]);
    assert s == s[..4] + "-" + s[5..7] + "-" + s[8..];
  }

  /** Round trip through the printer: for years from 1000 on, `to_url` prints a date
      that `to_python` reads back unchanged. */
  lemma RoundTripDate(d: Date)
    requires ValidDate(d) && d.year >= 1000
    ensures ToPython(ToUrl(d)) == Ok(d)
  {
    FormatIsoFromYear1000(d);
    ParseIsoFormat(d);
  }

  /** Round trip through the parser: an accepted segment whose year is at least 1000
      is printed back by `to_url` as the very same string. */
  lemma RoundTripString(s: string)
    requires ToPython(s).Ok? && ToPython(s).value.year >= 1000
    ensures ToUrl(ToPython(s).value) == s
  {
    FormatIsoFromYear1000(ToPython(s).value);
    AcceptedIsIsoFormat(s);
  }

  /** The converter accepts exactly the isoformat prints of valid dates. */
  lemma AcceptsExactlyIsoFormats(s: string)
    ensures ToPython(s).Ok? <==> exists d :: ValidDate(d) && IsoFormat(d) == s
  {
    if ToPython(s).Ok? {
      AcceptedIsIsoFormat(s);
    }
    if exists d :: ValidDate(d) && IsoFormat(d) == s {
      var d :| ValidDate(d) && IsoFormat(d) == s;
      ParseIsoFormat(d);
    }
  }

  /** Below year 1000 the printed form is too short for the pattern, so `to_url`
      produces a link that the converter itself rejects. */
  lemma ShortYearLinkRejected(d: Date)
    requires ValidDate(d) && d.year < 1000
    ensures ToPython(ToUrl(d)).Err?
  {
    FormatIsoBeforeYear1000(d);
  }

  /** The fields of a pattern-shaped string, digit by digit. */
  lemma FieldDigits(s: string)
    requires MatchesPattern(s)
    ensures Fields(s).year ==
      1000 * DigitValue(s[0]) + 100 * DigitValue(s[1]) + 10 * DigitValue(s[2]) + DigitValue(s[3])
    ensures Fields(s).month == 10 * DigitValue(s[5]) + DigitValue(s[6])
    ensures Fields(s).day == 10 * DigitValue(s[8]) + DigitValue(s[9])
  {
    assert s[..4][..3] == s[..3] && s[..3][..2] == s[..2] && s[..2][..1] == s[..1];
    assert ValueOf(s[..1], 10) == DigitValue(s[0]);
    assert ValueOf(s[..2], 10) == 10 * DigitValue(s[0]) + DigitValue(s[1]);
    assert ValueOf(s[..3], 10) == 100 * DigitValue(s[0]) + 10 * DigitValue(s[1]) + DigitValue(s[2]);
    var m, d := s[5..7], s[8..];
    assert m[..1] == [s[5]] && d[..1] == [s[8]];
    assert ValueOf(m[..1], 10) == DigitValue(s[5]) && ValueOf(d[..1], 10) == DigitValue(s[8]);
  }

  lemma Rejections()
    ensures ToPython("2023-02-29").Err?
    ensures ToPython("2023-13-01").Err?
    ensures ToPython("0000-01-01").Err?
    ensures ToPython("2024-1-05").Err?
    ensures ToPython("2024-02-29") == Ok(Date(2024, 2, 29))
  {
    FieldDigits("2023-02-29");
    FieldDigits("2023-13-01");
    FieldDigits("0000-01-01");
    FieldDigits("2024-02-29");
  }
}
