# Fractal render cache, modelled in Dafny

thefractal.space serves one fractal image per seed string or calendar day. An external
renderer draws the pixels. This model covers the logic around that renderer:

- **Size buckets.** A requested width snaps to the smallest supported width that is at
  least as large. A request above every width gets the largest one. The render height
  is `width * 9 // 16`.
- **Cache paths and fill-on-miss.** An image is stored at
  `FRACTALS_DIR/<width>/<md5(seed)>.png`. `ensure_exists` and the `img` route create the
  width's directory, then render and save only when nothing exists at the path. The
  bot's older store uses `static/df/{small|big}/<name>.png` with unhashed names.
- **Date strings.** The `date` URL converter reads and prints `YYYY-MM-DD`. Date seeds
  use the same printer. The bot's daily seed uses `"%d %b %Y"` instead.
- **Request routing.** This covers the default size 200, the uncached tiny squares of
  the old app, the `seeds_log` request log, the hexadecimal random seed, and the
  twelve-day pages of `/brouse`.

Layout, one module per file:

- `Basics`: option, result, error and path types.
- `Numerals`: `str(n)`, `hex(n)[2:]`, zero padding, and reading digits back.
- `Calendar`: Gregorian dates, `%Y`, `%m`, `%d`, `%b` and `isoformat`.
- `DateConverter`: the converter shared by all three apps.
- `Buckets`: the bucket loop and its reference definition.
- `Store`: the filesystem as a class.
- `Helpers`: thefractalspace/helpers.py.
- `App`: thefractalspace/app.py.
- `OldApp`: thefractalspace_old/app.py.
- `Browse`: `/brouse`, which is identical in both apps.
- `BotHelpers`: thefractalbot_web/helpers.py.
- `BotApp`: thefractalbot_web/app.py.

Some files repeat each other:

- thefractalspace_old/helpers.py repeats the converter, `path_for_seed`,
  `ensure_exists`, `seed_for_date` and `my_log` of thefractalspace/helpers.py line for
  line. The model has one copy; rows below cite either file.
- The `DateConverter` classes of thefractalbot_web/helpers.py:13-25 and
  thefractalbot_web/app.py:10-22 are the same class as well.
- The `random` seed of thefractalspace/app.py:86 is the same expression as the old
  app's, modelled as `OldApp.RandomSeed`.

Inputs that come from the environment are parameters:

- the cache root (`FRACTALS_DIR`) and the bot's `static` directory;
- today's day number;
- the random draw;
- the WSGI environ;
- the renderer (`Store.Renderer`);
- MD5 (`Helpers.Hasher`, any function returning 32 lower-case hex digits).

The renderer is deterministic in seed and size. The call that renders without a seed
takes the drawn image as a parameter. Every cache method returns `rendered`. It is the
render call it made, or None when it made no call.

The filesystem is `Store.FileSystem`. It holds a `map` from paths to image bytes and a
`set` of directories, and `Valid()` keeps them a tree. Paths follow these rules:

- `exists()` is true for files and directories.
- `mkdir(exist_ok=True)` does not create parents. It raises OSError when the parent is
  missing or a file is in the way.
- `Store.Filled` states the effect of one fill-on-miss. A hit changes nothing. A miss
  adds exactly one file, rendered once. The path exists afterwards.

`%Y` is modelled as the C library of a Linux host prints it, with no padding, so year
999 prints as `999`. `str(date)` always pads to four digits. So `to_url` round-trips
from year 1000 on, and `str(date)` round-trips for every date.

The model follows the code where a hardened design would differ. The code has no
atomic writes and no in-flight render table: it renders and saves in place without a
lock. It also does not reject widths ≤ 0 or empty seeds: zero and negative widths snap
to 200.

## Model

| member | source | states |
|---|---|---|
| Numerals.Numeral | thefractalspace/helpers.py:109 | `str(n)` is a non-empty string of digits, with a leading zero only for `"0"` |
| Numerals.ValueOfNumeral | thefractalspace/helpers.py:109 | reading the digits of `str(n)` gives back `n` |
| Numerals.NumeralOfValue | thefractalspace/helpers.py:26 | a digit string with no leading zero is exactly the `str` of its value |
| Numerals.NumeralWidth | thefractalspace_old/app.py:90 | a numeral has at most k digits exactly when the number is below base^k |
| Numerals.ValueOfZeroPad | thefractalspace/helpers.py:31 | a zero-padded `%m`/`%d` field reads back as the number printed |
| Numerals.ZeroPadOfValue | thefractalspace_old/helpers.py:26 | a fixed-width digit field that strptime reads is exactly the zero-padded print of its value |
| Calendar.DaysInMonth | thefractalspace/helpers.py:26 | month lengths 28 to 31, and February has 29 days exactly in Gregorian leap years |
| Calendar.FormatIsoFromYear1000 | thefractalbot_web/app.py:21-35 | from year 1000 on, `strftime("%Y-%m-%d")` equals `str(date)` |
| Calendar.FormatIsoBeforeYear1000 | thefractalspace/helpers.py:30-31 | below year 1000, `%Y` prints fewer than four digits and the two printers differ |
| Calendar.MonthAbbrevInjective | thefractalbot_web/helpers.py:89 | no two months share a `%b` abbreviation |
| DateConverter.ToPython | thefractalspace/helpers.py:22-28 | an accepted segment yields a valid date (year 1-9999, month 1-12, day within the month); everything else raises ValidationError |
| DateConverter.ParseIsoFormat | thefractalbot_web/app.py:13-19 | every valid date's `str(date)` is accepted and parsed back to that date |
| DateConverter.AcceptedIsIsoFormat | thefractalbot_web/helpers.py:16-22 | every accepted segment is the `str(date)` of the date it yields |
| DateConverter.AcceptsExactlyIsoFormats | thefractalspace_old/helpers.py:22-28 | the converter accepts a string if and only if it is `str(d)` for some valid date `d` |
| DateConverter.RoundTripDate | thefractalspace_old/helpers.py:22-31 | `to_python(to_url(d)) == d` for every valid date from year 1000 on |
| DateConverter.RoundTripString | thefractalbot_web/app.py:15-22 | `to_url(to_python(s)) == s` for every accepted `s` whose year is at least 1000 |
| DateConverter.ShortYearLinkRejected | thefractalspace/helpers.py:24-31 | for a year below 1000, `to_url` prints a segment the converter itself rejects |
| DateConverter.Rejections | thefractalbot_web/app.py:13-19 | 2023-02-29, month 13, year 0000 and a one-digit month are rejected; 2024-02-29 is accepted |
| Buckets.Snap | thefractalspace/helpers.py:115-122 | the reference bucket is always one of the widths |
| Buckets.SelectBucket | thefractalspace/helpers.py:116-122 | the descending loop with `break` returns the reference bucket: the least width at least `size`, else the largest |
| Buckets.SnapIsLeastFit | thefractalspace_old/helpers.py:54-61 | the bucket is a width, is at least the request when some width is, is no larger than any width that fits, and is the largest width when none fits |
| Buckets.SnapMonotonic | thefractalspace/helpers.py:115-122 | `s1 <= s2` implies `bucket(s1) <= bucket(s2)` |
| Buckets.HelperBuckets | thefractalspace_old/helpers.py:55-61 | with (1920, 1366, 640, 200): sizes up to 200, zero and negatives included, give 200; up to 640 give 640; up to 1366 give 1366; above that 1920 |
| Buckets.AppBuckets | thefractalspace/app.py:122-129 | with (1280, 640, 200): up to 200 give 200, up to 640 give 640, everything above gives 1280 |
| Buckets.RenderHeight | thefractalspace/helpers.py:132 | the height is the floor of 9/16 of the width |
| Buckets.BucketHeights | thefractalspace/app.py:139 | 200→112, 640→360, 1280→720, 1366→768, 1920→1080 |
| Store.MkdirOutcome | thefractalspace/helpers.py:127 | `mkdir(exist_ok=True)` succeeds if and only if the directory exists, or its parent exists and no file is in the way; otherwise OSError |
| Store.FillOnMiss | thefractalspace/helpers.py:129-135 | afterwards something exists at the path, no old file changes, and the only new file is at the path |
| Store.FillOnHitUnchanged | thefractalspace/helpers.py:129-130 | when the path exists the files are unchanged |
| Store.FillOnMissAddsOne | thefractalspace/helpers.py:131-135 | on a miss exactly one entry is added, the rendered image at the path |
| Store.FillOnMissIdempotent | thefractalspace_old/helpers.py:68-76 | a second fill of the same path changes nothing, whatever the renderer would return |
| Store.FileSystem.MakeDir | thefractalbot_web/helpers.py:101 | mkdir's outcome is `MkdirOutcome`; only the directory set changes, by that one directory |
| Store.FileSystem.Save | thefractalspace/helpers.py:135 | saving sets the one file and keeps the tree valid |
| Store.FileSystem.EnsureFile | thefractalbot_web/helpers.py:100-109 | mkdir, then render and save only on a miss: `Filled` (a hit changes nothing, a miss renders once and adds one file, the path exists after success) |
| Helpers.PathForBucket | thefractalspace/helpers.py:105-111 | AssertionError exactly when the size is not an allowed width, else `root/str(size)/md5hex(seed).png` |
| Helpers.PathForSeed | thefractalspace/helpers.py:99-111 | succeeds if and only if the size is 1920, 1366, 640 or 200 |
| Helpers.CachePathInjective | thefractalspace/helpers.py:107-111 | the directory depends only on the size, the file name only on the digest, and two paths are equal exactly when size and digest are |
| Helpers.EnsureExists | thefractalspace/helpers.py:114-137 | snaps to the helper bucket, returns its cache path or mkdir's OSError, renders at (bucket, bucket*9//16) and saves only on a miss, and changes nothing on a hit |
| Helpers.EnsureExistsTwice | thefractalspace_old/helpers.py:63-76 | two calls with the same seed and size leave the store exactly as one call does; after a successful first call the second renders nothing and returns the same path |
| Helpers.SeedForDate | thefractalspace/helpers.py:140-141 | from year 1000 on, the date seed is a ten-character string that the date converter reads back as the same date |
| Helpers.ClientIp | thefractalspace/helpers.py:149 | X-Forwarded-For when present, else REMOTE_ADDR; KeyError whenever REMOTE_ADDR is missing, because the default is evaluated first |
| Helpers.LogLine | thefractalspace/helpers.py:144-151 | nothing is logged for sizes up to 200 and the environ is not read; a larger size fails exactly when REMOTE_ADDR is missing |
| Helpers.LogLineIsOneLine | thefractalspace_old/helpers.py:90-92 | a logged request is exactly one newline-terminated line when the address and seed hold no newline |
| Helpers.SeedsLog.MyLog | thefractalspace/helpers.py:144-153 | `seeds_log` grows by exactly the log line, or is unchanged when the call raises KeyError |
| Browse.Brouse | thefractalspace/app.py:90-99 | the page is the argument clamped to at least 0 (0 when absent); 12 days, starting at `today - 12*page`, each one day before the last |
| Browse.PageIsCountdown | thefractalspace/app.py:95-99 | one page is the twelve-day countdown from its first day |
| Browse.PagesTile | thefractalspace_old/app.py:101-105 | pages 0 to n-1 together list the last 12n days, each exactly once, newest first |
| Browse.ConsecutivePagesAdjoin | thefractalspace/app.py:97-99 | the first day of page p+1 is the day before the last day of page p |
| App.ImgPathFailsAbove640 | thefractalspace/app.py:122-131 | the `img` path fails if and only if the size is above 640, with AssertionError(1280) |
| App.ImgSize1000Fails | thefractalspace/app.py:131 | a request with `size=1000` fails with AssertionError(1280) |
| App.ImgPathCorrectedResolves | thefractalspace/app.py:122-131 | with the guard on the caller's own widths, every size resolves to the cache path of its bucket |
| App.Img | thefractalspace/app.py:116-144 | size defaults to 200; on assertion failure nothing changes; otherwise the 1280/640/200 bucket is filled as in `ensure_exists` |
| App.ImgCorrected | thefractalspace/app.py:116-144 | the corrected route fails only when mkdir fails, and otherwise fills the bucket's cache file |
| OldApp.Route | thefractalspace_old/app.py:132-143 | sizes 3 to 100 are exact uncached squares; every other size, including 2 and below, goes to the helper bucket of the size: the least helper width at least the size, 1920 above 1920, and 200 for sizes up to 2 |
| OldApp.Img | thefractalspace_old/app.py:128-147 | a square renders `size × size` and touches neither the cache nor the log; otherwise `ensure_exists`, then `my_log` with the requested size rather than the bucket |
| OldApp.RandomSeed | thefractalspace_old/app.py:88-90 | the seed is 1 to 6 lower-case hex digits, with no leading zero except "0", and reads back as the draw |
| BotHelpers.DaySeed | thefractalbot_web/helpers.py:87-90 | the day seed is `DD Mon YYYY`: the zero-padded day, a space, the `%b` month, a space, the unpadded `%Y` year |
| BotHelpers.DaySeedInjective | thefractalbot_web/helpers.py:89 | distinct dates give distinct day seeds |
| BotHelpers.DaySeedIsNotIsoSeed | thefractalbot_web/helpers.py:89-90 | the bot's day seed never equals the `%Y-%m-%d` seed of the same date |
| BotHelpers.DaySeedExample | thefractalbot_web/helpers.py:89 | 2024-01-01 gives "01 Jan 2024" |
| BotHelpers.DailySize | thefractalbot_web/helpers.py:107 | (192, 108) when small, (1280, 720) when big, both 16:9 |
| BotHelpers.EnsureDailyExists | thefractalbot_web/helpers.py:95-111 | fills `static/df/small/YYYY-MM-DD.png` or `static/df/big/…` from the day seed at the daily size, and returns the same path relative to `static`; `small` defaults to true |
| BotHelpers.EnsureSeedExists | thefractalbot_web/helpers.py:114-128 | the file is named `seed + ".png"` without hashing; the render call carries no seed; only a miss renders; `small` defaults to true |
| BotApp.DailyFractal | thefractalbot_web/app.py:33-35 | `str(date)` is always read back by the converter, and equals `to_url(date)` from year 1000 on |
| BotApp.DailyFractalDiffersBeforeYear1000 | thefractalbot_web/app.py:21-35 | below year 1000, `str(date)` and `to_url(date)` differ |

## Findings

| source | as written | input that shows it | evidently intended | confidence | as-written member | corrected member |
|---|---|---|---|---|---|---|
| thefractalspace/app.py:122-131 | `img` snaps to (1280, 640, 200), but the `path_for_seed` it imports asserts `size in (1920, 1366, 640, 200)` (thefractalspace/helpers.py:105) | `/img/<seed>.png?size=1000` snaps to 1280 and raises AssertionError(1280); so does every size above 640 | the guard admits the widths the route snaps to, so each size is served from its bucket | high, not executed | App.ImgPathFailsAbove640 | App.ImgPathCorrectedResolves |

`App.Img` and `App.ImgSize1000Fails` also model the code as written. `App.ImgCorrected`
uses the corrected guard `Helpers.PathForBucket` over the route's own widths.

## Left out

- Concurrency: the apps run with `threaded=True`, and the check-then-save is unlocked. The model is the sequential semantics. Neither the code nor the model has an in-flight table or atomic renames.
- The renderer (`random_fractal`, `render`, `save`) and MD5 (RFC 1321) are function parameters. Their internals are not modelled.
- `infos()` is left out: floating-point rounding and markup.
- thefractalspace/fractals/models.py, views.py, urls.py and jinja2.py are left out: Django ORM and framework plumbing.
- thefractalspace/static/bubbles.js is left out: canvas physics in floating point.
- Flask plumbing is left out: templates, `send_from_directory`, `Response`, `yaml_src`, `generate`, `home`, `about`, `latest` and the 404 handler. Werkzeug's `type=int` parsing is too: a missing or unparsable argument arrives as None.
- Logging is left out: `logger.debug`/`logger.info` messages and `dictConfig`.
- The fractal that `_daily_fractal` builds is left out. Only its seed is modelled (`Helpers.SeedForDate`, `BotHelpers.DaySeed`).
- The converter reads `\d` as the ASCII digits only. Python's regex also matches other Unicode digits.
- `Store.MkdirOutcome`: OSError stands for FileNotFoundError, FileExistsError and NotADirectoryError alike.
- BotHelpers.EnsureSeedExists: seeds containing `/` are excluded by its requires. pathlib would split them into subdirectories, or restart from the filesystem root for a leading `/`. The function has no caller in these files.
- Browse.Brouse: days are integers, so every page has 12 days. In the source, `datetime.today() - 12*page*one_day` raises OverflowError once the date would fall before year 1 (in late 2026, from about page 61,650 on); that error path is not modelled.
- BotHelpers.EnsureDailyExists: the bot draws `random_fractal(seed=…)` at the renderer's default size and then sets `camera.size`. The model takes the result to be the renderer's image for (day seed, w, h), the same image `random_fractal((w, h), seed=seed)` gives elsewhere. What drawing at the default size first changes in the fractal is not modelled.
- `%Y` follows the Linux C library (no padding below year 1000). Platforms that pad would make `to_url` round-trip for every year.
