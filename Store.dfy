/** The on-disk image store the cache lives in: files and directories, with the
    semantics of `Path.mkdir(exist_ok=True)`, `Path.exists()` and `Image.save`. */
module Store {
  import opened Basics

  /** The bytes of a rendered PNG. */
  type Image = seq<bv8>

  /** A deterministic renderer: the image of the fractal drawn from `seed` with its
      camera at `w` by `h` pixels. */
  type Renderer = (string, int, int) -> Image

  /** What one call into the renderer was asked for; `seed` is None when the caller
      lets the renderer draw a random fractal. */
  datatype RenderCall = RenderCall(seed: Option<string>, width: int, height: int)

  function Parent(p: Path): Path
    requires |p| > 0
  {
    p[..|p| - 1]
  }

  /** `path.mkdir(exist_ok=True)` without `parents=True`: an existing directory is
      fine, a file in the way or a missing parent raises. */
  function MkdirOutcome(files: map<Path, Image>, dirs: set<Path>, d: Path): (r: Outcome)
    ensures r.Fail? ==> r.error == OSError(d)
    ensures r.Pass? <==> d in dirs || (d !in files && |d| > 0 && Parent(d) in dirs)
  {
    if d in dirs then Pass
    else if d in files || |d| == 0 || Parent(d) !in dirs then Fail(OSError(d))
    else Pass
  }

  /** The files after a fill-on-miss of `p`: unchanged when something already exists
      there, one new entry holding `image` otherwise. */
  function FillOnMiss(files: map<Path, Image>, dirs: set<Path>, p: Path, image: Image): (r: map<Path, Image>)
    ensures p in r || p in dirs
    ensures forall q :: q in files ==> q in r && r[q] == files[q]
    ensures forall q :: q in r && q != p ==> q in files
  {
    if p in files || p in dirs then files else files[p := image]
  }

  /** A hit leaves the files as they were. */
  lemma FillOnHitUnchanged(files: map<Path, Image>, dirs: set<Path>, p: Path, image: Image)
    requires p in files || p in dirs
    ensures FillOnMiss(files, dirs, p, image) == files
  {
  }

  /** A miss adds exactly one entry, the rendered image at `p`. */
  lemma FillOnMissAddsOne(files: map<Path, Image>, dirs: set<Path>, p: Path, image: Image)
    requires p !in files && p !in dirs
    ensures FillOnMiss(files, dirs, p, image).Keys == files.Keys + {p}
    ensures |FillOnMiss(files, dirs, p, image)| == |files| + 1
    ensures FillOnMiss(files, dirs, p, image)[p] == image
  {
    var r := FillOnMiss(files, dirs, p, image);
    assert r.Keys == files.Keys + {p};
    assert |files.Keys + {p}| == |files.Keys| + 1;
  }

  /** A second fill of the same path is a hit, whatever the renderer would produce. */
  lemma FillOnMissIdempotent(files: map<Path, Image>, dirs: set<Path>, p: Path, first: Image, second: Image)
    ensures FillOnMiss(FillOnMiss(files, dirs, p, first), dirs, p, second) == FillOnMiss(files, dirs, p, first)
  {
    var once := FillOnMiss(files, dirs, p, first);
    assert p in once || p in dirs;
  }

  /** One fill-on-miss of `dir + [name]`, taking the store from (files0, dirs0) to
      (files1, dirs1): `ok` says whether mkdir succeeded; on a failure nothing
      changes; on success the directory exists, the file exists, and the renderer was
      called (`rendered`) exactly when nothing was at the path before; a hit changes
      nothing at all. */
  ghost predicate Filled(files0: map<Path, Image>, dirs0: set<Path>, files1: map<Path, Image>, dirs1: set<Path>,
                         dir: Path, name: string, call: RenderCall, image: Image,
                         ok: bool, rendered: Option<RenderCall>)
  {
    var p := dir + [name];
    var hit := p in files0 || p in dirs0;
    ok == MkdirOutcome(files0, dirs0, dir).Pass? &&
    (!ok ==> files1 == files0 && dirs1 == dirs0 && rendered == None) &&
    (ok ==> dirs1 == dirs0 + {dir} && (p in files1 || p in dirs1) &&
            files1 == FillOnMiss(files0, dirs1, p, image) &&
            rendered == (if hit then None else Some(call))) &&
    (hit ==> ok && files1 == files0 && dirs1 == dirs0 && rendered == None)
  }

  class FileSystem {
    var files: map<Path, Image>
    var dirs: set<Path>

    /** A tree: the root is a directory, nothing is both a file and a directory, and
        every file and every directory but the root sits in a directory. */
    ghost predicate Valid()
      reads this
    {
      [] in dirs &&
      (forall p :: p in files ==> p !in dirs && |p| > 0 && Parent(p) in dirs) &&
      (forall d :: d in dirs && |d| > 0 ==> Parent(d) in dirs)
    }

    constructor ()
      ensures Valid() && files == map[] && dirs == {[]}
    {
      files := map[];
      dirs := {[]};
    }

    /** `path.exists()`: true for files and directories alike. */
    predicate Exists(p: Path)
      reads this
    {
      p in files || p in dirs
    }

    method MakeDir(d: Path) returns (r: Outcome)
      requires Valid()
      modifies this
      ensures Valid() && files == old(files)
      ensures r == MkdirOutcome(old(files), old(dirs), d)
      ensures dirs == if r.Pass? then old(dirs) + {d} else old(dirs)
    {
      r := MkdirOutcome(files, dirs, d);
      if r.Pass? {
        dirs := dirs + {d};
      }
    }

    /** `image.save(p)` into an existing directory. */
    method Save(p: Path, image: Image)
      requires Valid() && |p| > 0 && Parent(p) in dirs && p !in dirs
      modifies this
      ensures Valid() && dirs == old(dirs)
      ensures files == old(files)[p := image]
    {
      files := files[p := image];
    }

    /** The cache step shared by every variant: make the directory, then render and
        save `dir/name` only if nothing exists there. `image` is what the renderer
        returns for `call`; `rendered` reports whether the renderer was called. */
    method EnsureFile(dir: Path, name: string, call: RenderCall, image: Image)
      returns (r: Outcome, rendered: Option<RenderCall>)
      requires Valid()
      modifies this
      ensures Valid()
      ensures r.Fail? ==> r.error == OSError(dir)
      ensures Filled(old(files), old(dirs), files, dirs, dir, name, call, image, r.Pass?, rendered)
    {
      rendered := None;
      assert Exists(dir + [name]) ==> Parent(dir + [name]) in dirs;
      r := MakeDir(dir);
      if r.Fail? {
        return;
      }
      var p := dir + [name];
      assert Parent(p) == dir;
      if !Exists(p) {
        Save(p, image);
        rendered := Some(call);
      }
    }
  }
}
