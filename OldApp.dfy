/** thefractalspace_old/app.py: `img` sends tiny sizes straight to the renderer and
    everything else through `ensure_exists` and `my_log`; `/random` makes a hex seed. */
module OldApp {
  import opened Basics
  import opened Numerals
  import opened Buckets
  import opened Store
  import opened Helpers
  import App

  /** How `img` serves a request size. */
  datatype ImgRoute = Square(side: int) | Bucketed(width: int)

  /** Sizes 3 to 100 are rendered as an exact square and never cached; every other
      size, zero and negative ones included, is served from a helper width. */
  function Route(size: int): (r: ImgRoute)
    ensures r.Square? <==> 2 < size <= 100
    ensures r.Square? ==> r.side == size
    ensures r.Bucketed? ==> r.width in HelperSizes && (size <= 1920 ==> size <= r.width)
    ensures r.Bucketed? && size <= 2 ==> r.width == 200
    ensures r.Bucketed? ==> r.width == Snap(HelperSizes, size) && (size > 1920 ==> r.width == 1920)
  {
    if 2 < size <= 100 then Square(size)
    else
      assert Descending(HelperSizes);
      SnapIsLeastFit(HelperSizes, size);
      HelperBuckets(size);
      Bucketed(Snap(HelperSizes, size))
  }

  datatype Response =
    | Inline(image: Image)   // `Response(BytesIO, mimetype="img/png")`
    | Cached(path: Path)     // `send_from_directory(path.parent, path.name)`

  /** `img(seed)`. A tiny square touches neither the cache nor the log; a cached size
      goes through `ensure_exists` and is then logged with the requested size, not
      the bucket. */
  method Img(fs: FileSystem, log: SeedsLog, root: Path, md5: Hasher, render: Renderer,
             seed: string, sizeArg: Option<int>, environ: map<string, string>)
    returns (r: Result<Response>, rendered: Option<RenderCall>)
    requires fs.Valid()
    modifies fs, log
    ensures fs.Valid()
    ensures var size := App.RequestedSize(sizeArg);
      Route(size).Square? ==>
        r == Ok(Inline(render(seed, size, size))) && rendered == Some(RenderCall(Some(seed), size, size)) &&
        fs.files == old(fs.files) && fs.dirs == old(fs.dirs) && log.text == old(log.text)
    ensures var size := App.RequestedSize(sizeArg);
      Route(size).Bucketed? ==>
        var b := Route(size).width;
        var line := LogLine(seed, size, environ);
        exists cached: Result<Path> ::
          BucketFilled(old(fs.files), old(fs.dirs), fs.files, fs.dirs, root, md5, render, seed, b, cached, rendered) &&
          (cached.Err? ==> r == Err(cached.error) && log.text == old(log.text)) &&
          (cached.Ok? && line.Err? ==> r == Err(line.error) && log.text == old(log.text)) &&
          (cached.Ok? && line.Ok? ==> r == Ok(Cached(cached.value)) && log.text == old(log.text) + line.value)
  {
    var size := App.RequestedSize(sizeArg);
    if 2 < size <= 100 {
      rendered := Some(RenderCall(Some(seed), size, size));
      r := Ok(Inline(render(seed, size, size)));
      return;
    }
    var path;
    path, rendered := EnsureExists(fs, root, md5, render, seed, size);
    if path.Err? {
      r := Err(path.error);
      return;
    }
    var logged := log.MyLog(seed, size, environ);
    r := if logged.Fail? then Err(logged.error) else Ok(Cached(path.value));
  }

  /** `hex(random.randint(0, 16 ** 6 - 1))[2:]`, with the random draw `n` as input:
      one to six lower-case hex digits, no leading zero except "0" itself, and
      reading it back gives the draw. */
  function RandomSeed(n: int): (seed: string)
    requires 0 <= n <= 16 * 16 * 16 * 16 * 16 * 16 - 1
    ensures 1 <= |seed| <= 6 && AllDigits(seed, 16)
    ensures seed[0] == '0' ==> seed == "0"
    ensures ValueOf(seed, 16) == n
  {
    NumeralWidth(n, 16, 6);
    ValueOfNumeral(n, 16);
    Numeral(n, 16)
  }
}
