/** thefractalspace/helpers.py: where a seed's image is cached, the fill-on-miss
    `ensure_exists`, the date seed, and the `seeds_log` request log. */
module Helpers {
  import opened Basics
  import opened Numerals
  import opened Calendar
  import DateConverter
  import opened Buckets
  import opened Store

  /** `hashlib.md5(seed.encode()).hexdigest()`: 32 lower-case hex digits. */
  type Digest = s: string | |s| == 32 && AllDigits(s, 16)
    witness "00000000000000000000000000000000"

  /** The hash, a parameter of the model (MD5 itself is not modelled). */
  type Hasher = string -> Digest

  /** `FRACTALS_DIR / str(size)`. */
  function CacheDir(root: Path, size: nat): Path
  {
    root + [Numeral(size, 10)]
  }

  /** `FRACTALS_DIR / str(size) / (hashed + ".png")`. */
  function CachePath(root: Path, digest: Digest, size: nat): Path
  {
    CacheDir(root, size) + [digest + ".png"]
  }

  /** The path of a seed's image, guarded by `assert size in allowed`. */
  function PathForBucket(root: Path, md5: Hasher, seed: string, allowed: seq<int>, size: int): (r: Result<Path>)
    requires Descending(allowed)
    ensures r.Err? <==> size !in allowed
    ensures r.Err? ==> r.error == AssertionError(size)
    ensures r.Ok? ==> size > 0 && r.value == CachePath(root, md5(seed), size)
  {
    if size in allowed then Ok(CachePath(root, md5(seed), size)) else Err(AssertionError(size))
  }

  /** `path_for_seed`, whose assertion admits exactly the four helper widths. */
  function PathForSeed(root: Path, md5: Hasher, seed: string, size: int): (r: Result<Path>)
    ensures r.Ok? <==> size == 1920 || size == 1366 || size == 640 || size == 200
  {
    assert Descending(HelperSizes);
    PathForBucket(root, md5, seed, HelperSizes, size)
  }

  /** The directory of a cached image depends only on the size, its file name only on
      the seed's digest, and distinct (size, digest) pairs never share a path. */
  lemma {:induction false} CachePathInjective(root: Path, d1: Digest, d2: Digest, s1: nat, s2: nat)
    ensures Parent(CachePath(root, d1, s1)) == CacheDir(root, s1)
    ensures CachePath(root, d1, s1)[|root| + 1] == d1 + ".png"
    ensures CachePath(root, d1, s1) == CachePath(root, d2, s2) <==> d1 == d2 && s1 == s2
  {
    var p1, p2 := CachePath(root, d1, s1), CachePath(root, d2, s2);
    if p1 == p2 {
      assert p1[|root|] == p2[|root|];
      ValueOfNumeral(s1, 10);
      ValueOfNumeral(s2, 10);
      assert p1[|root| + 1] == p2[|root| + 1];
      assert (d1 + ".png")[..32] == d1 && (d2 + ".png")[..32] == d2;
    }
  }

  /** One fill of the cache file of `seed` at width `b`, as `ensure_exists` and
      `img` do it after choosing the width: the result is the cache path, or the
      OSError of a failed mkdir; see `Filled` for the store. */
  ghost predicate BucketFilled(files0: map<Path, Image>, dirs0: set<Path>, files1: map<Path, Image>, dirs1: set<Path>,
                               root: Path, md5: Hasher, render: Renderer, seed: string, b: nat,
                               r: Result<Path>, rendered: Option<RenderCall>)
  {
    var h := RenderHeight(b);
    Filled(files0, dirs0, files1, dirs1, CacheDir(root, b), md5(seed) + ".png",
           RenderCall(Some(seed), b, h), render(seed, b, h), r.Ok?, rendered) &&
    r == (if r.Ok? then Ok(CachePath(root, md5(seed), b)) else Err(OSError(CacheDir(root, b))))
  }

  /** `ensure_exists`: snap the size to a helper width, make the width's directory,
      and render at (width, width * 9 // 16) and save only when the path is missing. */
  method EnsureExists(fs: FileSystem, root: Path, md5: Hasher, render: Renderer, seed: string, size: int)
    returns (r: Result<Path>, rendered: Option<RenderCall>)
    requires fs.Valid()
    modifies fs
    ensures fs.Valid()
    ensures BucketFilled(old(fs.files), old(fs.dirs), fs.files, fs.dirs, root, md5, render, seed,
                         Snap(HelperSizes, size), r, rendered)
  {
    var bucket := SelectBucket(HelperSizes, size);
    assert Descending(HelperSizes);
    var path := PathForSeed(root, md5, seed, bucket);
    var height := RenderHeight(bucket);
    var status;
    status, rendered := fs.EnsureFile(CacheDir(root, bucket), md5(seed) + ".png",
                                      RenderCall(Some(seed), bucket, height), render(seed, bucket, height));
    r := if status.Fail? then Err(status.error) else Ok(path.value);
  }

  /** Two calls in a row with the same seed and size leave the store as one call
      does; after a successful first call the second renders nothing and returns
      the same path. */
  method EnsureExistsTwice(fs: FileSystem, root: Path, md5: Hasher, render: Renderer, seed: string, size: int)
    returns (first: Result<Path>, rendered: Option<RenderCall>, second: Result<Path>, renderedAgain: Option<RenderCall>)
    requires fs.Valid()
    modifies fs
    ensures fs.Valid()
    ensures BucketFilled(old(fs.files), old(fs.dirs), fs.files, fs.dirs, root, md5, render, seed,
                         Snap(HelperSizes, size), first, rendered)
    ensures first.Ok? ==> second == first && renderedAgain == None
  {
    first, rendered := EnsureExists(fs, root, md5, render, seed, size);
    ghost var files, dirs := fs.files, fs.dirs;
    second, renderedAgain := EnsureExists(fs, root, md5, render, seed, size);
    if first.Ok? {
      assert CachePath(root, md5(seed), Snap(HelperSizes, size)) in files || CachePath(root, md5(seed), Snap(HelperSizes, size)) in dirs;
    }
  }

  /** `seed_for_date`: `date.strftime("%Y-%m-%d")`, the same printer as the URL
      converter's `to_url`, so a date seed read back by the converter gives the date. */
  function SeedForDate(d: Date): (seed: string)
    requires ValidDate(d)
    ensures d.year >= 1000 ==> |seed| == 10 && DateConverter.ToPython(seed) == Ok(d)
  {
    assert d.year >= 1000 ==> |DateConverter.ToUrl(d)| == 10 && DateConverter.ToPython(DateConverter.ToUrl(d)) == Ok(d) by {
      if d.year >= 1000 {
        DateConverter.RoundTripDate(d);
        FormatIsoFromYear1000(d);
      }
    }
    DateConverter.ToUrl(d)
  }

  /** Requests up to this width (the home page's thumbnails) are not logged. */
  const LogThreshold: int := 200

  /** `request.environ.get("HTTP_X_FORWARDED_FOR", request.environ["REMOTE_ADDR"])`:
      the default is looked up first, so a missing REMOTE_ADDR raises even when the
      forwarded-for header is present. */
  function ClientIp(environ: map<string, string>): (r: Result<string>)
    ensures r.Err? <==> "REMOTE_ADDR" !in environ
    ensures r.Err? ==> r.error == KeyError("REMOTE_ADDR")
    ensures r.Ok? && "HTTP_X_FORWARDED_FOR" in environ ==> r.value == environ["HTTP_X_FORWARDED_FOR"]
    ensures r.Ok? && "HTTP_X_FORWARDED_FOR" !in environ ==> r.value == environ["REMOTE_ADDR"]
  {
    if "REMOTE_ADDR" !in environ then Err(KeyError("REMOTE_ADDR"))
    else if "HTTP_X_FORWARDED_FOR" in environ then Ok(environ["HTTP_X_FORWARDED_FOR"])
    else Ok(environ["REMOTE_ADDR"])
  }

  /** The text `my_log` appends: nothing up to the threshold (the environ is not even
      read), otherwise `f"{ip} - {seed} - {size}\n"`. */
  function LogLine(seed: string, size: int, environ: map<string, string>): (r: Result<string>)
    ensures size <= LogThreshold ==> r == Ok("")
    ensures r.Err? <==> size > LogThreshold && "REMOTE_ADDR" !in environ
  {
    if size <= LogThreshold then Ok("")
    else match ClientIp(environ)
      case Err(e) => Err(e)
      case Ok(ip) => Ok(ip + " - " + seed + " - " + Numeral(size, 10) + "\n")
  }

  function CountChar(s: string, c: char): nat
  {
    if s == [] then 0 else CountChar(s[..|s| - 1], c) + (if s[|s| - 1] == c then 1 else 0)
  }

  lemma {:induction false} CountCharConcat(a: string, b: string, c: char)
    ensures CountChar(a + b, c) == CountChar(a, c) + CountChar(b, c)
    decreases |b|
  {
    if b != [] {
      assert (a + b)[..|a + b| - 1] == a + b[..|b| - 1];
      CountCharConcat(a, b[..|b| - 1], c);
    } else {
      assert a + b == a;
    }
  }

  lemma {:induction false} NumeralHasNoNewline(n: nat)
    ensures CountChar(Numeral(n, 10), '\n') == 0
  {
    var s := Numeral(n, 10);
    NoNewlineInDigits(s);
  }

  lemma {:induction false} NoNewlineInDigits(s: string)
    requires AllDigits(s, 10)
    ensures CountChar(s, '\n') == 0
    decreases |s|
  {
    if s != [] {
      NoNewlineInDigits(s[..|s| - 1]);
    }
  }

  /** A logged request is exactly one line of `seeds_log`, provided the address and
      the seed hold no newline themselves. */
  lemma LogLineIsOneLine(seed: string, size: int, environ: map<string, string>)
    requires LogLine(seed, size, environ).Ok? && size > LogThreshold
    requires CountChar(seed, '\n') == 0 && CountChar(ClientIp(environ).value, '\n') == 0
    ensures var line := LogLine(seed, size, environ).value;
      CountChar(line, '\n') == 1 && line[|line| - 1] == '\n'
  {
    var ip := ClientIp(environ).value;
    var digits := Numeral(size, 10);
    NumeralHasNoNewline(size);
    CountCharConcat(ip, " - ", '\n');
    CountCharConcat(ip + " - ", seed, '\n');
    CountCharConcat(ip + " - " + seed, " - ", '\n');
    CountCharConcat(ip + " - " + seed + " - ", digits, '\n');
    CountCharConcat(ip + " - " + seed + " - " + digits, "\n", '\n');
    assert CountChar(" - ", '\n') == 0 by {
      assert " - "[..2] == " -" && " -"[..1] == " " && " "[..0] == "";
    }
  }

  /** The `seeds_log` file, opened in append mode. */
  class SeedsLog {
    var text: string

    constructor ()
      ensures text == ""
    {
      text := "";
    }

    /** `my_log(seed, size, request)`. */
    method MyLog(seed: string, size: int, environ: map<string, string>) returns (r: Outcome)
      modifies this
      ensures r.Fail? <==> LogLine(seed, size, environ).Err?
      ensures r.Fail? ==> r.error == KeyError("REMOTE_ADDR") && text == old(text)
      ensures r.Pass? ==> text == old(text) + LogLine(seed, size, environ).value
    {
      if size <= LogThreshold {
        return Pass;
      }
      var ip := ClientIp(environ);
      if ip.Err? {
        return Fail(ip.error);
      }
      text := text + (ip.value + " - " + seed + " - " + Numeral(size, 10) + "\n");
      r := Pass;
    }
  }
}
