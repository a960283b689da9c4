/** thefractalbot_web/helpers.py: the bot's daily fractal, keyed by unhashed names
    under `static/df/small` or `static/df/big`. */
module BotHelpers {
  import opened Basics
  import opened Numerals
  import opened Calendar
  import opened Store

  /** The seed `_daily_fractal` renders: `date.strftime("%d %b %Y")`, e.g. "01 Jan 2024". */
  function DaySeed(d: Date): (seed: string)
    requires ValidDate(d)
    ensures |seed| >= 8 && seed[2] == ' ' && seed[6] == ' '
    ensures seed[..2] == StrfTwoDigits(d.day) && seed[3..6] == MonthAbbrev(d.month) && seed[7..] == StrfYear(d)
  {
    StrfTwoDigits(d.day) + " " + MonthAbbrev(d.month) + " " + StrfYear(d)
  }

  /** Distinct days get distinct seeds. */
  lemma {:induction false} DaySeedInjective(d1: Date, d2: Date)
    requires ValidDate(d1) && ValidDate(d2) && DaySeed(d1) == DaySeed(d2)
    ensures d1 == d2
  {
    ValueOfZeroPad(d1.day, 2);
    ValueOfZeroPad(d2.day, 2);
    MonthAbbrevInjective(d1.month, d2.month);
    ValueOfNumeral(d1.year, 10);
    ValueOfNumeral(d2.year, 10);
  }

  /** The bot's daily seed is never the site's ISO date seed, so the two services
      use different seeds for the same day. */
  lemma DaySeedIsNotIsoSeed(d: Date)
    requires ValidDate(d)
    ensures DaySeed(d) != FormatIso(d)
  {
    var iso := FormatIso(d);
    var y := StrfYear(d);
    if |y| > 2 {
      assert iso[2] == y[2];
    } else {
      assert iso[2] in StrfTwoDigits(d.month) + "-";
    }
  }

  lemma DaySeedExample()
    ensures DaySeed(Date(2024, 1, 1)) == "01 Jan 2024"
  {
    NumeralWidth(1, 10, 1);
    assert Numeral(2024, 10) == Numeral(202, 10) + ['4'];
    assert Numeral(202, 10) == Numeral(20, 10) + ['2'];
    assert Numeral(20, 10) == Numeral(2, 10) + ['0'];
  }

  /** `(16*12, 9*12)` for the small image and `(16*80, 9*80)` for the big one. */
  function DailySize(small: bool): (wh: (int, int))
    ensures 9 * wh.0 == 16 * wh.1
    ensures small ==> wh == (192, 108)
    ensures !small ==> wh == (1280, 720)
  {
    if small then (16 * 12, 9 * 12) else (16 * 80, 9 * 80)
  }

  function SubDir(small: bool): string
  {
    if small then "small" else "big"
  }

  /** `ensure_daily_exists(date, small=True)`: the image of `static/df/{small|big}/YYYY-MM-DD.png`,
      rendered from the day seed at the daily size on a miss; the path is returned
      relative to `static`. */
  method EnsureDailyExists(fs: FileSystem, staticDir: Path, render: Renderer, d: Date, small: bool := true)
    returns (r: Result<Path>, rendered: Option<RenderCall>)
    requires fs.Valid() && ValidDate(d)
    modifies fs
    ensures fs.Valid()
    ensures var dir := staticDir + ["df", SubDir(small)];
      var name := FormatIso(d) + ".png";
      var (w, h) := DailySize(small);
      Filled(old(fs.files), old(fs.dirs), fs.files, fs.dirs, dir, name,
             RenderCall(Some(DaySeed(d)), w, h), render(DaySeed(d), w, h), r.Ok?, rendered) &&
      r == (if r.Ok? then Ok(["df", SubDir(small), name]) else Err(OSError(dir))) &&
      (r.Ok? ==> staticDir + r.value == dir + [name])
  {
    var dir := staticDir + ["df", SubDir(small)];
    var name := FormatIso(d) + ".png";
    var (w, h) := DailySize(small);
    var status;
    status, rendered := fs.EnsureFile(dir, name, RenderCall(Some(DaySeed(d)), w, h), render(DaySeed(d), w, h));
    r := if status.Fail? then Err(status.error) else Ok(["df", SubDir(small), name]);
  }

  /** `ensure_seed_exists(seed, small=True)`: the file is named by the raw seed, and the
      seed is not passed to the renderer, which draws a random fractal (`drawn`). */
  method EnsureSeedExists(fs: FileSystem, staticDir: Path, drawn: Image, seed: string, small: bool := true)
    returns (r: Result<Path>, rendered: Option<RenderCall>)
    requires fs.Valid() && '/' !in seed
    modifies fs
    ensures fs.Valid()
    ensures var dir := staticDir + ["df", SubDir(small)];
      var name := seed + ".png";
      var (w, h) := DailySize(small);
      Filled(old(fs.files), old(fs.dirs), fs.files, fs.dirs, dir, name,
             RenderCall(None, w, h), drawn, r.Ok?, rendered) &&
      r == (if r.Ok? then Ok(["df", SubDir(small), name]) else Err(OSError(dir))) &&
      (r.Ok? ==> staticDir + r.value == dir + [name])
  {
    var dir := staticDir + ["df", SubDir(small)];
    var name := seed + ".png";
    var (w, h) := DailySize(small);
    var status;
    status, rendered := fs.EnsureFile(dir, name, RenderCall(None, w, h), drawn);
    r := if status.Fail? then Err(status.error) else Ok(["df", SubDir(small), name]);
  }
}
