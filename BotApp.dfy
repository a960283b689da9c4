/** thefractalbot_web/app.py: the `/df/<date>` route answers `str(date)`. */
module BotApp {
  import opened Basics
  import opened Calendar
  import DateConverter

  /** `daily_fractal(date)`: `str(date)`, which the date converter always reads back,
      and which equals `to_url(date)` from year 1000 on. */
  function DailyFractal(d: Date): (s: string)
    requires ValidDate(d)
    ensures DateConverter.ToPython(s) == Ok(d)
    ensures d.year >= 1000 ==> s == DateConverter.ToUrl(d)
  {
    DateConverter.ParseIsoFormat(d);
    assert d.year >= 1000 ==> IsoFormat(d) == FormatIso(d) by {
      if d.year >= 1000 {
        FormatIsoFromYear1000(d);
      }
    }
    IsoFormat(d)
  }

  /** For year 999 the two printers disagree: "0999-01-01" against "999-01-01". */
  lemma DailyFractalDiffersBeforeYear1000(d: Date)
    requires ValidDate(d) && d.year < 1000
    ensures DailyFractal(d) != DateConverter.ToUrl(d)
  {
    FormatIsoBeforeYear1000(d);
  }
}
