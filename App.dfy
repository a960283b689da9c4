/** thefractalspace/app.py: the `img` route, which inlines its own copy of the
    bucket loop over (1280, 640, 200) but calls the helpers' `path_for_seed`. */
module App {
  import opened Basics
  import opened Buckets
  import opened Store
  import opened Helpers

  /** `request.args.get("size", default=200, type=int)`; None stands for a missing
      or non-integer argument. */
  const DefaultSize: int := 200

  function RequestedSize(sizeArg: Option<int>): int
  {
    sizeArg.GetOr(DefaultSize)
  }

  /** The path `img` asks for, as written: a 1280 bucket fails the assertion in
      `path_for_seed`, whose widths are those of the helpers. */
  function ImgPath(root: Path, md5: Hasher, seed: string, size: int): Result<Path>
  {
    PathForSeed(root, md5, seed, Snap(AppSizes, size))
  }

  /** Every request wider than 640 pixels fails with AssertionError(1280), and only those. */
  lemma ImgPathFailsAbove640(root: Path, md5: Hasher, seed: string, size: int)
    ensures ImgPath(root, md5, seed, size).Err? <==> size > 640
    ensures size > 640 ==> ImgPath(root, md5, seed, size).error == AssertionError(1280)
  {
    AppBuckets(size);
  }

  /** The request `/img/<seed>.png?size=1000` concretely. */
  lemma ImgSize1000Fails(root: Path, md5: Hasher, seed: string)
    ensures ImgPath(root, md5, seed, 1000) == Err(AssertionError(1280))
  {
    ImgPathFailsAbove640(root, md5, seed, 1000);
  }

  /** The path guard as evidently intended: it admits the widths the caller snaps to. */
  function ImgPathCorrected(root: Path, md5: Hasher, seed: string, size: int): Result<Path>
  {
    assert Descending(AppSizes);
    PathForBucket(root, md5, seed, AppSizes, Snap(AppSizes, size))
  }

  /** With the corrected guard every size resolves, to the directory of its bucket. */
  lemma ImgPathCorrectedResolves(root: Path, md5: Hasher, seed: string, size: int)
    ensures ImgPathCorrected(root, md5, seed, size).Ok?
    ensures var b := Snap(AppSizes, size);
      b in AppSizes && ImgPathCorrected(root, md5, seed, size).value == CachePath(root, md5(seed), b)
  {
    assert Descending(AppSizes);
    SnapIsLeastFit(AppSizes, size);
  }

  /** `img(seed)` as written: bucket loop, `path_for_seed`, mkdir, then render at
      (bucket, bucket * 9 // 16) and save only on a miss; the path is then served.
      A failing assertion leaves the store untouched. */
  method Img(fs: FileSystem, root: Path, md5: Hasher, render: Renderer, seed: string, sizeArg: Option<int>)
    returns (r: Result<Path>, rendered: Option<RenderCall>)
    requires fs.Valid()
    modifies fs
    ensures fs.Valid()
    ensures var size := RequestedSize(sizeArg);
      ImgPath(root, md5, seed, size).Err? ==>
        r == ImgPath(root, md5, seed, size) && rendered == None &&
        fs.files == old(fs.files) && fs.dirs == old(fs.dirs)
    ensures var size := RequestedSize(sizeArg);
      ImgPath(root, md5, seed, size).Ok? ==>
        BucketFilled(old(fs.files), old(fs.dirs), fs.files, fs.dirs, root, md5, render, seed,
                     Snap(AppSizes, size), r, rendered)
  {
    rendered := None;
    var size := RequestedSize(sizeArg);
    var bucket := SelectBucket(AppSizes, size);
    var path := PathForSeed(root, md5, seed, bucket);
    if path.Err? {
      r := path;
      return;
    }
    var height := RenderHeight(bucket);
    var status;
    status, rendered := fs.EnsureFile(CacheDir(root, bucket), md5(seed) + ".png",
                                      RenderCall(Some(seed), bucket, height), render(seed, bucket, height));
    r := if status.Fail? then Err(status.error) else Ok(path.value);
  }

  /** `img` with the corrected guard: only a failing mkdir can make it fail. */
  method ImgCorrected(fs: FileSystem, root: Path, md5: Hasher, render: Renderer, seed: string, sizeArg: Option<int>)
    returns (r: Result<Path>, rendered: Option<RenderCall>)
    requires fs.Valid()
    modifies fs
    ensures fs.Valid()
    ensures BucketFilled(old(fs.files), old(fs.dirs), fs.files, fs.dirs, root, md5, render, seed,
                         Snap(AppSizes, RequestedSize(sizeArg)), r, rendered)
  {
    var size := RequestedSize(sizeArg);
    var bucket := SelectBucket(AppSizes, size);
    ImgPathCorrectedResolves(root, md5, seed, size);
    var path := ImgPathCorrected(root, md5, seed, size);
    var height := RenderHeight(bucket);
    var status;
    status, rendered := fs.EnsureFile(CacheDir(root, bucket), md5(seed) + ".png",
                                      RenderCall(Some(seed), bucket, height), render(seed, bucket, height));
    r := if status.Fail? then Err(status.error) else Ok(path.value);
  }
}
