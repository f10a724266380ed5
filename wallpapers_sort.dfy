/** `wallpapers/sort.rs`: moves every image under the wallpapers directory
    into the single-screen or the dual-screen directory by its aspect ratio. */
module WallpapersSort {

  import opened Wrappers
  import opened Text
  import opened DonErrors
  import opened DonErrorLib
  import opened WallpaperCommon

  /** A path as its list of components. */
  type Path = seq<string>

  const ThumbsDb: string := "Thumbs.db"

  /** `RATIO_LIMIT`: images up to this width/height ratio go to the single bucket. */
  const RatioLimit: real := 16.0 / 9.0 * 1.3

  datatype Dims = Dims(width: nat, height: nat)

  /** A file as the sorter sees it: the dimensions `imagesize::size` reads
      from it (`None` when it cannot), and the error renaming it gives, if any. */
  datatype Image = Image(dims: Option<Dims>, renameError: Option<AnyError>)

  /** `p` lies somewhere below `dir`. */
  predicate Under(dir: Path, p: Path)
  {
    |dir| < |p| && p[..|dir|] == dir
  }

  /** `p` is an entry of `dir` itself. */
  predicate ChildOf(dir: Path, p: Path)
  {
    |p| == |dir| + 1 && p[..|dir|] == dir
  }

  /** `Path::file_name` */
  function Name(p: Path): string
    requires |p| > 0
  {
    p[|p| - 1]
  }

  /** The ratio test `w / h <= RATIO_LIMIT` is `90 * w <= 208 * h`. */
  lemma RatioTest(w: real, h: real)
    requires w >= 0.0 && h > 0.0
    ensures w / h <= RatioLimit <==> 90.0 * w <= 208.0 * h
  {
    var q := w / h;
    assert q * h == w;
    assert RatioLimit == 208.0 / 90.0;
    if q <= 208.0 / 90.0 {
      assert q * h <= (208.0 / 90.0) * h;
    } else {
      assert q * h > (208.0 / 90.0) * h;
    }
  }

  /** The bucket for an image: single when width/height is at most
      `RATIO_LIMIT`, computed exactly as `90 * width <= 208 * height`. A zero
      height makes the `f64` ratio infinite or NaN, and the image goes to dual. */
  function BucketOf(d: Dims): (b: Bucket)
    ensures d.height > 0 ==> (b == Single <==> d.width as real / d.height as real <= RatioLimit)
    ensures d.height == 0 ==> b == Dual
  {
    if d.height == 0 then Dual
    else
      RatioTest(d.width as real, d.height as real);
      if 90 * d.width <= 208 * d.height then Single else Dual
  }

  /** A 16:9 full-HD image is single; three of them side by side are dual. */
  lemma BucketExamples()
    ensures BucketOf(Dims(1920, 1080)) == Single
    ensures BucketOf(Dims(5760, 1080)) == Dual
  {
  }

  function BucketDir(root: Path, singleName: string, dualName: string, b: Bucket): Path
  {
    root + [if b == Single then singleName else dualName]
  }

  /** Where `move_to` puts an image of these dimensions: its bucket directory, same file name. */
  function Destination(root: Path, singleName: string, dualName: string, p: Path, d: Dims): (dest: Path)
    requires |p| > 0
    ensures ChildOf(BucketDir(root, singleName, dualName, BucketOf(d)), dest) && Name(dest) == Name(p)
  {
    BucketDir(root, singleName, dualName, BucketOf(d)) + [Name(p)]
  }

  /** A file the sort phase moves: not named `Thumbs.db`, readable as an image, renamable. */
  predicate Sortable(p: Path, img: Image)
  {
    |p| > 0 && Name(p) != ThumbsDb && img.dims.Some? && img.renameError.None?
  }

  /** Every file below the root that the sort would move, except those at
      the paths in `pending`, is already in its bucket. */
  ghost predicate SortedBut(files: map<Path, Image>, root: Path, singleName: string, dualName: string, pending: set<Path>)
  {
    forall p :: p in files && Under(root, p) && Sortable(p, files[p]) && p !in pending ==>
      p == Destination(root, singleName, dualName, p, files[p].dims.value)
  }

  /** Every file below the root that the sort would move is already in its bucket. */
  ghost predicate Sorted(files: map<Path, Image>, root: Path, singleName: string, dualName: string)
  {
    SortedBut(files, root, singleName, dualName, {})
  }

  ghost predicate Unchanged(files: map<Path, Image>, before: map<Path, Image>, p: Path)
  {
    (p in files <==> p in before) && (p in files ==> files[p] == before[p])
  }

  /** Nothing outside `root` changed. */
  ghost predicate KeptOutside(files: map<Path, Image>, before: map<Path, Image>, root: Path)
  {
    forall p :: !Under(root, p) ==> Unchanged(files, before, p)
  }

  /** The files below `root`, each as its name and contents. */
  ghost function NamedImages(files: map<Path, Image>, root: Path): set<(string, Image)>
  {
    set p | p in files && Under(root, p) :: (Name(p), files[p])
  }

  /** Every file below `root` is a file that was below `root` before, under the same name. */
  ghost predicate NamesFrom(files: map<Path, Image>, before: map<Path, Image>, root: Path)
  {
    NamedImages(files, root) <= NamedImages(before, root)
  }

  /** Every file named `Thumbs.db` is where it was. */
  ghost predicate ThumbsKept(files: map<Path, Image>, before: map<Path, Image>)
  {
    forall p :: p in before && |p| > 0 && Name(p) == ThumbsDb ==> p in files && files[p] == before[p]
  }

  /** Every file below `root` the sort leaves in place, once visited, was reported. */
  ghost predicate Covered(files: map<Path, Image>, root: Path, pending: set<Path>, reported: set<Path>)
  {
    forall p :: p in files && Under(root, p) && |p| > 0 && Name(p) != ThumbsDb && !Sortable(p, files[p]) && p !in pending ==>
      p in reported
  }

  /** The state of the sort's walk: `pending` are the paths still to visit. */
  ghost predicate Walking(files: map<Path, Image>, before: map<Path, Image>, root: Path, singleName: string,
                          dualName: string, pending: set<Path>, reported: set<Path>)
  {
    && (forall p :: p in pending ==> p in files && p in before && Under(root, p) && Name(p) != ThumbsDb)
    && (forall p :: p in reported ==> p in before && Under(root, p) && Name(p) != ThumbsDb && p !in pending)
    && SortedBut(files, root, singleName, dualName, pending)
    && (Sorted(before, root, singleName, dualName) ==> files == before)
    && Covered(files, root, pending, reported)
    && NamesFrom(files, before, root)
    && ThumbsKept(files, before)
    && KeptOutside(files, before, root)
  }

  /** The walk starts with every file below the root not named `Thumbs.db` pending. */
  lemma WalkStart(files: map<Path, Image>, root: Path, singleName: string, dualName: string, pending: set<Path>)
    requires pending == set p | p in files && Under(root, p) && Name(p) != ThumbsDb
    ensures Walking(files, files, root, singleName, dualName, pending, {})
  {
    NamesFromSelf(files, root);
  }

  lemma NamesFromSelf(files: map<Path, Image>, root: Path)
    ensures NamesFrom(files, files, root)
  {
  }

  /** Visiting a file that is reported and left in place. */
  lemma ReportStep(files: map<Path, Image>, before: map<Path, Image>, root: Path, singleName: string,
                   dualName: string, pending: set<Path>, reported: set<Path>, p: Path)
    requires Walking(files, before, root, singleName, dualName, pending, reported)
    requires p in pending && !Sortable(p, files[p])
    ensures Walking(files, before, root, singleName, dualName, pending - {p}, reported + {p})
  {
  }

  /** Moving the visited file `p` into its bucket: the new state. */
  function MoveInto(files: map<Path, Image>, root: Path, singleName: string, dualName: string, p: Path): map<Path, Image>
    requires p in files && Sortable(p, files[p])
  {
    (files - {p})[Destination(root, singleName, dualName, p, files[p].dims.value) := files[p]]
  }

  lemma MoveKeepsSorted(files: map<Path, Image>, root: Path, singleName: string, dualName: string,
                        pending: set<Path>, p: Path)
    requires p in files && p in pending && Sortable(p, files[p])
    requires SortedBut(files, root, singleName, dualName, pending)
    ensures SortedBut(MoveInto(files, root, singleName, dualName, p), root, singleName, dualName, pending - {p})
  {
    var after := MoveInto(files, root, singleName, dualName, p);
    var dest := Destination(root, singleName, dualName, p, files[p].dims.value);
    forall x | x in after && Under(root, x) && Sortable(x, after[x]) && x !in pending - {p}
      ensures x == Destination(root, singleName, dualName, x, after[x].dims.value)
    {
      if x != dest {
        assert x != p && after[x] == files[x];
      }
    }
  }

  lemma MoveKeepsNames(files: map<Path, Image>, before: map<Path, Image>, root: Path, singleName: string,
                       dualName: string, p: Path)
    requires p in files && Under(root, p) && Sortable(p, files[p])
    requires NamesFrom(files, before, root)
    ensures NamesFrom(MoveInto(files, root, singleName, dualName, p), before, root)
  {
    var after := MoveInto(files, root, singleName, dualName, p);
    var dest := Destination(root, singleName, dualName, p, files[p].dims.value);
    forall x | x in after && Under(root, x)
      ensures (Name(x), after[x]) in NamedImages(files, root)
    {
      if x == dest {
        assert (Name(p), files[p]) in NamedImages(files, root);
      } else {
        assert after[x] == files[x];
        assert (Name(x), files[x]) in NamedImages(files, root);
      }
    }
  }

  lemma MoveKeepsOutside(files: map<Path, Image>, before: map<Path, Image>, root: Path, singleName: string,
                         dualName: string, p: Path)
    requires p in files && Under(root, p) && Sortable(p, files[p])
    requires KeptOutside(files, before, root)
    ensures KeptOutside(MoveInto(files, root, singleName, dualName, p), before, root)
  {
    var dest := Destination(root, singleName, dualName, p, files[p].dims.value);
    assert Under(root, dest);
  }

  lemma MoveKeepsRest(files: map<Path, Image>, before: map<Path, Image>, root: Path, singleName: string,
                      dualName: string, pending: set<Path>, reported: set<Path>, p: Path)
    requires p in files && p in pending && Under(root, p) && Sortable(p, files[p])
    requires Covered(files, root, pending, reported)
    requires ThumbsKept(files, before)
    requires Sorted(before, root, singleName, dualName) ==> files == before
    ensures Covered(MoveInto(files, root, singleName, dualName, p), root, pending - {p}, reported)
    ensures ThumbsKept(MoveInto(files, root, singleName, dualName, p), before)
    ensures Sorted(before, root, singleName, dualName) ==> MoveInto(files, root, singleName, dualName, p) == before
  {
    var after := MoveInto(files, root, singleName, dualName, p);
    var dest := Destination(root, singleName, dualName, p, files[p].dims.value);
    assert Name(dest) == Name(p);
    if Sorted(before, root, singleName, dualName) {
      assert dest == p;
      assert after == files;
    }
  }

  /** Visiting a file that is moved into its bucket. */
  lemma MoveStep(files: map<Path, Image>, before: map<Path, Image>, root: Path, singleName: string,
                 dualName: string, pending: set<Path>, reported: set<Path>, p: Path)
    requires Walking(files, before, root, singleName, dualName, pending, reported)
    requires p in pending && Sortable(p, files[p])
    ensures Walking(MoveInto(files, root, singleName, dualName, p), before, root, singleName, dualName, pending - {p}, reported)
  {
    MoveKeepsSorted(files, root, singleName, dualName, pending, p);
    MoveKeepsNames(files, before, root, singleName, dualName, p);
    MoveKeepsOutside(files, before, root, singleName, dualName, p);
    MoveKeepsRest(files, before, root, singleName, dualName, pending, reported, p);
  }

  /** The file at `x` is one the sort moves, and it is already in its bucket. */
  ghost predicate InPlace(files: map<Path, Image>, root: Path, singleName: string, dualName: string, x: Path)
  {
    x in files && Sortable(x, files[x]) && x == Destination(root, singleName, dualName, x, files[x].dims.value)
  }

  /** Some other file the sort would move has `q` as its destination, so the
      rename of that file may replace whatever is at `q`. */
  ghost predicate Targeted(before: map<Path, Image>, root: Path, singleName: string, dualName: string, q: Path)
  {
    exists r :: r in before && Under(root, r) && r != q && Sortable(r, before[r])
                && Destination(root, singleName, dualName, r, before[r].dims.value) == q
  }

  /** What the walk keeps of the files no other move targets: a pending file
      is as it was (or, if replaced, in place), a visited movable file is in
      place at its destination, and a reported file is where it was. */
  ghost predicate Keeping(files: map<Path, Image>, before: map<Path, Image>, root: Path, singleName: string,
                          dualName: string, pending: set<Path>, reported: set<Path>)
  {
    && (forall q :: q in pending ==>
          q in files && q in before && (files[q] == before[q] || InPlace(files, root, singleName, dualName, q)))
    && (forall q :: q in pending && !Targeted(before, root, singleName, dualName, q) ==>
          q in files && q in before && files[q] == before[q])
    && (forall q :: q in before && Under(root, q) && Sortable(q, before[q]) && q !in pending
                    && !Targeted(before, root, singleName, dualName, q) ==>
          InPlace(files, root, singleName, dualName, Destination(root, singleName, dualName, q, before[q].dims.value)))
    && (forall q :: q in reported && !Targeted(before, root, singleName, dualName, q) ==>
          q in files && q in before && files[q] == before[q])
  }

  lemma KeepingStart(files: map<Path, Image>, root: Path, singleName: string, dualName: string, pending: set<Path>)
    requires pending == set p | p in files && Under(root, p) && Name(p) != ThumbsDb
    ensures Keeping(files, files, root, singleName, dualName, pending, {})
  {
  }

  /** Visiting a file that is reported and left in place keeps what the walk keeps. */
  lemma KeepingReport(files: map<Path, Image>, before: map<Path, Image>, root: Path, singleName: string,
                      dualName: string, pending: set<Path>, reported: set<Path>, p: Path)
    requires Keeping(files, before, root, singleName, dualName, pending, reported)
    requires p in pending && !Sortable(p, files[p])
    ensures Keeping(files, before, root, singleName, dualName, pending - {p}, reported + {p})
  {
  }

  /** A move puts its file in place and takes no other file out of place. */
  lemma MoveKeepsInPlace(files: map<Path, Image>, root: Path, singleName: string, dualName: string, p: Path)
    requires p in files && Sortable(p, files[p])
    ensures InPlace(MoveInto(files, root, singleName, dualName, p), root, singleName, dualName,
                    Destination(root, singleName, dualName, p, files[p].dims.value))
    ensures forall x :: InPlace(files, root, singleName, dualName, x) ==>
              InPlace(MoveInto(files, root, singleName, dualName, p), root, singleName, dualName, x)
  {
    var dest := Destination(root, singleName, dualName, p, files[p].dims.value);
    var after := MoveInto(files, root, singleName, dualName, p);
    assert Name(dest) == Name(p);
    forall x | InPlace(files, root, singleName, dualName, x)
      ensures InPlace(after, root, singleName, dualName, x)
    {
      if x != dest {
        assert x != p;
        assert after[x] == files[x];
      }
    }
  }

  /** Visiting a file that is moved into its bucket keeps what the walk keeps. */
  lemma KeepingMove(files: map<Path, Image>, before: map<Path, Image>, root: Path, singleName: string,
                    dualName: string, pending: set<Path>, reported: set<Path>, p: Path)
    requires Keeping(files, before, root, singleName, dualName, pending, reported)
    requires forall q :: q in pending ==> Under(root, q)
    requires forall q :: q in reported ==> q !in pending
    requires p in pending && Sortable(p, files[p])
    ensures Keeping(MoveInto(files, root, singleName, dualName, p), before, root, singleName, dualName,
                    pending - {p}, reported)
  {
    var dest := Destination(root, singleName, dualName, p, files[p].dims.value);
    var after := MoveInto(files, root, singleName, dualName, p);
    MoveKeepsInPlace(files, root, singleName, dualName, p);
    // The only path a move adds to is `dest`: either `p` itself, or a path `p` targets.
    forall q | q != p && q == dest ensures Targeted(before, root, singleName, dualName, q) {
      assert files[p] == before[p];
    }
    forall q | q in pending - {p}
      ensures q in after && q in before && (after[q] == before[q] || InPlace(after, root, singleName, dualName, q))
    {
      if q != dest {
        assert after[q] == files[q];
      }
    }
    forall q | q in reported && !Targeted(before, root, singleName, dualName, q)
      ensures q in after && q in before && after[q] == before[q]
    {
      assert q != dest && after[q] == files[q];
    }
  }

  /** What `move_all_files` leaves: every file is untouched or came from below
      `oldDir` into `newDir` under the same name. */
  ghost predicate MovedInto(files: map<Path, Image>, before: map<Path, Image>, oldDir: Path, newDir: Path)
  {
    forall p :: p in files ==>
      (p in before && files[p] == before[p])
      || exists q :: q in before && Under(oldDir, q) && p == newDir + [Name(q)] && files[p] == before[q]
  }

  /** `rename(p, newDir/name)`: the file leaves `p` and replaces whatever
      `newDir` held under its name. */
  function MoveFile(files: map<Path, Image>, p: Path, newDir: Path): (after: map<Path, Image>)
    requires p in files && |p| > 0
    ensures newDir + [Name(p)] in after && after[newDir + [Name(p)]] == files[p]
    ensures forall x :: x != p && x != newDir + [Name(p)] ==> Unchanged(after, files, x)
  {
    (files - {p})[newDir + [Name(p)] := files[p]]
  }

  /** `p` is where `move_all_files` puts some file that was below `oldDir`. */
  ghost predicate IsTarget(before: map<Path, Image>, oldDir: Path, newDir: Path, p: Path)
  {
    exists q :: q in before && Under(oldDir, q) && p == newDir + [Name(q)]
  }

  /** Only the files below `oldDir` and the paths they are moved to may have changed. */
  ghost predicate Framed(files: map<Path, Image>, before: map<Path, Image>, oldDir: Path, newDir: Path)
  {
    forall p :: !Under(oldDir, p) && !IsTarget(before, oldDir, newDir, p) ==> Unchanged(files, before, p)
  }

  lemma TargetOf(before: map<Path, Image>, oldDir: Path, newDir: Path, q: Path)
    requires q in before && Under(oldDir, q)
    ensures IsTarget(before, oldDir, newDir, newDir + [Name(q)])
  {
  }

  /** A path that is neither moved nor a target is what it was. */
  lemma FramedKeeps(files: map<Path, Image>, before: map<Path, Image>, oldDir: Path, newDir: Path, p: Path)
    requires Framed(files, before, oldDir, newDir)
    requires !Under(oldDir, p) && !IsTarget(before, oldDir, newDir, p)
    ensures Unchanged(files, before, p)
  {
  }

  /** The state of `move_all_files`' walk: `remaining` are the files below
      `oldDir` still to move, unchanged; every other file that was below
      `oldDir` could be renamed and has a file of its name in `newDir`. */
  ghost predicate Emptying(files: map<Path, Image>, before: map<Path, Image>, oldDir: Path, newDir: Path,
                           remaining: set<Path>)
  {
    && (forall p :: p in remaining ==> p in files && p in before && Under(oldDir, p) && files[p] == before[p])
    && (forall p :: p in files && Under(oldDir, p) ==> p in remaining)
    && (forall q :: q in before && Under(oldDir, q) && q !in remaining ==>
          before[q].renameError.None? && newDir + [Name(q)] in files)
    && MovedInto(files, before, oldDir, newDir)
    && Framed(files, before, oldDir, newDir)
  }

  /** The walk starts with every file below `oldDir` to move. */
  lemma EmptyingStart(files: map<Path, Image>, oldDir: Path, newDir: Path)
    ensures Emptying(files, files, oldDir, newDir, set p | p in files && Under(oldDir, p))
  {
  }

  /** Moving one remaining file that can be renamed keeps the walk's invariant. */
  lemma EmptyingStep(files: map<Path, Image>, before: map<Path, Image>, oldDir: Path, newDir: Path,
                     remaining: set<Path>, p: Path)
    requires |oldDir| > |newDir| || newDir[..|oldDir|] != oldDir
    requires Emptying(files, before, oldDir, newDir, remaining)
    requires p in remaining && files[p].renameError.None?
    ensures Emptying(MoveFile(files, p, newDir), before, oldDir, newDir, remaining - {p})
  {
    var dest := newDir + [Name(p)];
    var after := MoveFile(files, p, newDir);
    assert !Under(oldDir, dest);
    forall q | q in before && Under(oldDir, q) && q !in remaining - {p}
      ensures before[q].renameError.None? && newDir + [Name(q)] in after
    {
      if q != p {
        var d := newDir + [Name(q)];
        if d != dest {
          assert Unchanged(after, files, d);
        }
      }
    }
    forall x | x in after
      ensures (x in before && after[x] == before[x])
              || exists q :: q in before && Under(oldDir, q) && x == newDir + [Name(q)] && after[x] == before[q]
    {
      if x != dest {
        assert Unchanged(after, files, x);
      }
    }
    TargetOf(before, oldDir, newDir, p);
    forall x | !Under(oldDir, x) && !IsTarget(before, oldDir, newDir, x) ensures Unchanged(after, before, x) {
      assert x != dest && x != p;
      assert Unchanged(after, files, x);
    }
  }

  /** Every target is an entry of `newDir` itself. */
  lemma TargetsAreChildren(before: map<Path, Image>, oldDir: Path, newDir: Path)
    ensures forall p :: IsTarget(before, oldDir, newDir, p) ==> ChildOf(newDir, p)
  {
  }

  /** A path below a bucket is below the root. */
  lemma UnderBucket(root: Path, bucket: string, p: Path)
    requires Under(root + [bucket], p)
    ensures Under(root, p) && !ChildOf(root, p)
  {
    assert p[..|root|] == p[..|root| + 1][..|root|];
  }

  /** A file that was not moved, when every moved file reached its target,
      is still there: unchanged, or replaced by a moved file. */
  lemma Lands(files: map<Path, Image>, before: map<Path, Image>, oldDir: Path, newDir: Path, p: Path)
    requires forall q :: q in before && Under(oldDir, q) ==> newDir + [Name(q)] in files
    requires Framed(files, before, oldDir, newDir)
    requires p in before && !Under(oldDir, p)
    ensures p in files
  {
    if IsTarget(before, oldDir, newDir, p) {
      var q :| q in before && Under(oldDir, q) && p == newDir + [Name(q)];
    }
  }

  /** Emptying a bucket into the root invents no name below the root, keeps
      the outside of the root, and keeps every file below the root outside
      the bucket that no moved file lands on. */
  lemma MovedIntoRoot(files: map<Path, Image>, before: map<Path, Image>, root: Path, bucket: string)
    requires MovedInto(files, before, root + [bucket], root)
    requires Framed(files, before, root + [bucket], root)
    ensures NamesFrom(files, before, root)
    ensures KeptOutside(files, before, root)
    ensures forall p :: p in before && Under(root, p) && !Under(root + [bucket], p)
                        && !IsTarget(before, root + [bucket], root, p) ==>
              p in files && files[p] == before[p]
  {
    forall p | p in files && Under(root, p)
      ensures (Name(p), files[p]) in NamedImages(before, root)
    {
      if p in before && files[p] == before[p] {
        assert (Name(p), before[p]) in NamedImages(before, root);
      } else {
        var q :| q in before && Under(root + [bucket], q) && p == root + [Name(q)] && files[p] == before[q];
        UnderBucket(root, bucket, q);
        assert (Name(q), before[q]) in NamedImages(before, root);
      }
    }
    TargetsAreChildren(before, root + [bucket], root);
    forall p | !Under(root, p) ensures Unchanged(files, before, p) {
      if Under(root + [bucket], p) {
        UnderBucket(root, bucket, p);
      }
      FramedKeeps(files, before, root + [bucket], root, p);
    }
  }

  /** After the single bucket is emptied into the root, a target of the dual
      bucket's files is a target of files that were in the dual bucket at the start. */
  lemma DualTargetsFromStart(start: map<Path, Image>, middle: map<Path, Image>, root: Path, singleName: string,
                             dualName: string)
    requires MovedInto(middle, start, root + [singleName], root)
    ensures forall p :: IsTarget(middle, root + [dualName], root, p) ==> IsTarget(start, root + [dualName], root, p)
  {
    forall p | IsTarget(middle, root + [dualName], root, p) ensures IsTarget(start, root + [dualName], root, p) {
      var q :| q in middle && Under(root + [dualName], q) && p == root + [Name(q)];
      UnderBucket(root, dualName, q);
      assert q in start && middle[q] == start[q];
    }
  }

  /** The two emptyings together: the rest of the root is kept, the single
      bucket stays empty, and when the dual bucket's files all landed, so
      did every file of either bucket at the start. */
  lemma EmptiedBoth(start: map<Path, Image>, middle: map<Path, Image>, files: map<Path, Image>, root: Path,
                    singleName: string, dualName: string)
    requires MovedInto(middle, start, root + [singleName], root) && Framed(middle, start, root + [singleName], root)
    requires forall q :: q in start && Under(root + [singleName], q) ==> root + [Name(q)] in middle
    requires forall p :: p in middle ==> !Under(root + [singleName], p)
    requires Framed(files, middle, root + [dualName], root)
    ensures RestKept(files, start, root, singleName, dualName)
    ensures forall p :: Under(root + [singleName], p) && !Under(root + [dualName], p) ==> Unchanged(files, middle, p)
    ensures (forall q :: q in middle && Under(root + [dualName], q) ==> root + [Name(q)] in files) ==>
              BucketsLanded(files, start, root, singleName, dualName)
  {
    TargetsAreChildren(start, root + [singleName], root);
    TargetsAreChildren(middle, root + [dualName], root);
    DualTargetsFromStart(start, middle, root, singleName, dualName);
    forall p | p in start && Under(root, p) && !Under(root + [singleName], p) && !Under(root + [dualName], p)
               && !IsTarget(start, root + [singleName], root, p) && !IsTarget(start, root + [dualName], root, p)
      ensures p in files && files[p] == start[p]
    {
      FramedKeeps(middle, start, root + [singleName], root, p);
      FramedKeeps(files, middle, root + [dualName], root, p);
    }
    forall p | Under(root + [singleName], p) && !Under(root + [dualName], p) ensures Unchanged(files, middle, p) {
      UnderBucket(root, singleName, p);
      FramedKeeps(files, middle, root + [dualName], root, p);
    }
    if forall q :: q in middle && Under(root + [dualName], q) ==> root + [Name(q)] in files {
      forall q | q in start && (Under(root + [singleName], q) || Under(root + [dualName], q))
        ensures root + [Name(q)] in files
      {
        var t := root + [Name(q)];
        if Under(root + [singleName], q) {
          Lands(files, middle, root + [dualName], root, t);
        } else {
          UnderBucket(root, dualName, q);
          FramedKeeps(middle, start, root + [singleName], root, q);
        }
      }
    }
  }

  /** After the forced phase every file of either bucket has a file of its name in the root. */
  ghost predicate BucketsLanded(files: map<Path, Image>, before: map<Path, Image>, root: Path, singleName: string,
                                dualName: string)
  {
    forall q :: q in before && (Under(root + [singleName], q) || Under(root + [dualName], q)) ==>
      root + [Name(q)] in files
  }

  /** The forced phase keeps every file below the root outside both buckets
      that no file of a bucket lands on. */
  ghost predicate RestKept(files: map<Path, Image>, before: map<Path, Image>, root: Path, singleName: string,
                           dualName: string)
  {
    forall p :: p in before && Under(root, p) && !Under(root + [singleName], p) && !Under(root + [dualName], p)
                && !IsTarget(before, root + [singleName], root, p) && !IsTarget(before, root + [dualName], root, p) ==>
      p in files && files[p] == before[p]
  }

  /** The wallpaper tree: its directories and its files. */
  class WallpaperTree {
    var dirs: set<Path>
    var files: map<Path, Image>

    constructor (dirs: set<Path>, files: map<Path, Image>)
      ensures this.dirs == dirs && this.files == files
    {
      this.dirs := dirs;
      this.files := files;
    }

    /** `move_to`: renames the file into `newDir` under the same name; a file
        already there is replaced. */
    method MoveTo(file: Path, newDir: Path) returns (err: Option<AnyError>)
      requires file in files && |file| > 0
      modifies this
      ensures err == old(files[file].renameError)
      ensures dirs == old(dirs)
      ensures err.None? ==> files == MoveFile(old(files), file, newDir)
      ensures err.Some? ==> files == old(files)
    {
      err := files[file].renameError;
      if err.None? {
        files := MoveFile(files, file, newDir);
      }
    }

    /** `move_all_files`: moves every file below `oldDir`, in walk order, into
        `newDir`; the first rename that fails ends the walk with its error. */
    method MoveAllFiles(oldDir: Path, newDir: Path) returns (r: DonResult<()>)
      requires |oldDir| > |newDir| || newDir[..|oldDir|] != oldDir
      modifies this
      ensures dirs == old(dirs)
      ensures r.Ok? <==> forall p :: p in old(files) && Under(oldDir, p) ==> old(files)[p].renameError.None?
      ensures r.Err? ==> exists p :: p in old(files) && Under(oldDir, p) && old(files)[p].renameError == Some(r.error.err)
      ensures r.Ok? ==> forall p :: p in files ==> !Under(oldDir, p)
      ensures r.Ok? ==> forall q :: q in old(files) && Under(oldDir, q) ==> newDir + [Name(q)] in files
      ensures MovedInto(files, old(files), oldDir, newDir)
      ensures Framed(files, old(files), oldDir, newDir)
    {
      var remaining := set p | p in files && Under(oldDir, p);
      EmptyingStart(files, oldDir, newDir);
      while remaining != {}
        invariant dirs == old(dirs)
        invariant Emptying(files, old(files), oldDir, newDir, remaining)
        decreases remaining
      {
        var p :| p in remaining;
        ghost var prev := files;
        var err := MoveTo(p, newDir);
        if err.Some? {
          return Err(FromError(err.value));
        }
        EmptyingStep(prev, old(files), oldDir, newDir, remaining, p);
        remaining := remaining - {p};
      }
      r := Ok(());
    }

    /** The `for_each` over the walked files: each file below the root, except
        those named `Thumbs.db`, is moved to the bucket its dimensions select;
        a file that cannot be read or renamed is reported and left in place.
        Returns the paths reported. */
    method SortFiles(root: Path, singleName: string, dualName: string) returns (reported: set<Path>)
      modifies this
      ensures dirs == old(dirs)
      ensures Sorted(files, root, singleName, dualName)
      ensures Covered(files, root, {}, reported)
      ensures forall p :: p in reported ==> p in old(files) && Under(root, p) && Name(p) != ThumbsDb
      ensures Sorted(old(files), root, singleName, dualName) ==> files == old(files)
      ensures NamesFrom(files, old(files), root)
      ensures ThumbsKept(files, old(files))
      ensures KeptOutside(files, old(files), root)
      ensures forall q :: q in old(files) && Under(root, q) && Sortable(q, old(files)[q])
                          && !Targeted(old(files), root, singleName, dualName, q) ==>
                InPlace(files, root, singleName, dualName, Destination(root, singleName, dualName, q, old(files)[q].dims.value))
      ensures forall q :: q in reported && !Targeted(old(files), root, singleName, dualName, q) ==>
                q in files && files[q] == old(files)[q]
    {
      reported := {};
      var remaining := set p | p in files && Under(root, p) && Name(p) != ThumbsDb;
      WalkStart(files, root, singleName, dualName, remaining);
      KeepingStart(files, root, singleName, dualName, remaining);
      while remaining != {}
        invariant dirs == old(dirs)
        invariant Walking(files, old(files), root, singleName, dualName, remaining, reported)
        invariant Keeping(files, old(files), root, singleName, dualName, remaining, reported)
        decreases remaining
      {
        var p :| p in remaining;
        var image := files[p];
        if image.dims.None? {
          ReportStep(files, old(files), root, singleName, dualName, remaining, reported, p);
          KeepingReport(files, old(files), root, singleName, dualName, remaining, reported, p);
          reported := reported + {p};
        } else {
          var bucket := BucketDir(root, singleName, dualName, BucketOf(image.dims.value));
          if image.renameError.Some? {
            ReportStep(files, old(files), root, singleName, dualName, remaining, reported, p);
            KeepingReport(files, old(files), root, singleName, dualName, remaining, reported, p);
          } else {
            MoveStep(files, old(files), root, singleName, dualName, remaining, reported, p);
            KeepingMove(files, old(files), root, singleName, dualName, remaining, reported, p);
          }
          var err := MoveTo(p, bucket);
          if err.Some? {
            reported := reported + {p};
          }
        }
        remaining := remaining - {p};
      }
    }

    /** `perform`: checks that the wallpapers directory exists, creates the
        two bucket directories when missing, with `force_sort_all_wallpapers`
        first moves every file of both buckets back to the root, then sorts.
        Returns the outcome and the paths reported by the sort. */
    method Perform(root: Path, singleName: string, dualName: string, forceSortAllWallpapers: bool)
      returns (r: DonResult<()>, reported: set<Path>, ghost emptied: map<Path, Image>)
      modifies this
      ensures root !in old(dirs) ==>
                r == Bail(Join(root, '/') + " not found on this computer") && reported == {}
                && dirs == old(dirs) && files == old(files)
      ensures root in old(dirs) ==> dirs == old(dirs) + {root + [singleName], root + [dualName]}
      ensures r.Ok? <==>
                root in old(dirs)
                && (forceSortAllWallpapers ==>
                      forall p :: p in old(files) && (Under(root + [singleName], p) || Under(root + [dualName], p)) ==>
                        old(files)[p].renameError.None?)
      ensures r.Err? ==> reported == {}
      ensures r.Ok? ==> Sorted(files, root, singleName, dualName) && Covered(files, root, {}, reported)
      ensures forall p :: p in reported ==> Under(root, p) && Name(p) != ThumbsDb
      ensures NamesFrom(files, old(files), root)
      ensures KeptOutside(files, old(files), root)
      ensures !forceSortAllWallpapers ==> ThumbsKept(files, old(files))
      ensures !forceSortAllWallpapers && Sorted(old(files), root, singleName, dualName) ==> files == old(files)
      ensures r.Ok? && !forceSortAllWallpapers ==> emptied == old(files)
      ensures r.Ok? && forceSortAllWallpapers ==>
                (forall p :: p in emptied ==> !Under(root + [singleName], p) && !Under(root + [dualName], p))
                && NamesFrom(emptied, old(files), root) && KeptOutside(emptied, old(files), root)
                && BucketsLanded(emptied, old(files), root, singleName, dualName)
                && RestKept(emptied, old(files), root, singleName, dualName)
      ensures r.Ok? ==> ThumbsKept(files, emptied)
      ensures r.Ok? ==>
                forall q :: q in emptied && Under(root, q) && Sortable(q, emptied[q])
                            && !Targeted(emptied, root, singleName, dualName, q) ==>
                  InPlace(files, root, singleName, dualName, Destination(root, singleName, dualName, q, emptied[q].dims.value))
      ensures r.Ok? ==>
                forall q :: q in reported && !Targeted(emptied, root, singleName, dualName, q) ==>
                  q in emptied && q in files && files[q] == emptied[q]
    {
      reported := {};
      emptied := files;
      if root !in dirs {
        NamesFromSelf(files, root);
        r := Bail(Join(root, '/') + " not found on this computer");
        return;
      }
      CreateBuckets(root + [singleName], root + [dualName]);
      ghost var start := files;
      if forceSortAllWallpapers {
        r := EmptyBuckets(root, singleName, dualName);
        if r.Err? {
          return;
        }
      } else {
        NamesFromSelf(files, root);
      }
      emptied := files;
      reported := SortFiles(root, singleName, dualName);
      r := Ok(());
    }

    /** The setup of `perform`: each bucket directory is created unless it exists. */
    method CreateBuckets(singleDir: Path, dualDir: Path)
      modifies this
      ensures dirs == old(dirs) + {singleDir, dualDir}
      ensures files == old(files)
    {
      if singleDir !in dirs {
        dirs := dirs + {singleDir};
      }
      assert dirs == old(dirs) + {singleDir};
      if dualDir !in dirs {
        dirs := dirs + {dualDir};
      }
    }

    /** The forced phase of `perform`: the single bucket, then the dual one,
        emptied into the root; the first rename that fails ends it. */
    method EmptyBuckets(root: Path, singleName: string, dualName: string) returns (r: DonResult<()>)
      modifies this
      ensures dirs == old(dirs)
      ensures r.Ok? <==>
                forall p :: p in old(files) && (Under(root + [singleName], p) || Under(root + [dualName], p)) ==>
                  old(files)[p].renameError.None?
      ensures r.Ok? ==> forall p :: p in files ==> !Under(root + [singleName], p) && !Under(root + [dualName], p)
      ensures r.Ok? ==> BucketsLanded(files, old(files), root, singleName, dualName)
      ensures RestKept(files, old(files), root, singleName, dualName)
      ensures NamesFrom(files, old(files), root)
      ensures KeptOutside(files, old(files), root)
    {
      ghost var start := files;
      r := MoveAllFiles(root + [singleName], root);
      MovedIntoRoot(files, start, root, singleName);
      if r.Err? {
        return r;
      }
      ghost var middle := files;
      BucketsApart(start, middle, root, singleName, dualName);
      r := MoveAllFiles(root + [dualName], root);
      MovedIntoRoot(files, middle, root, dualName);
      EmptiedBoth(start, middle, files, root, singleName, dualName);
    }
  }

  /** After the single bucket is emptied into the root, the dual bucket holds
      what it held before (or nothing, when the two are the same directory). */
  lemma BucketsApart(start: map<Path, Image>, middle: map<Path, Image>, root: Path, singleName: string, dualName: string)
    requires forall p :: p in middle ==> !Under(root + [singleName], p)
    requires Framed(middle, start, root + [singleName], root)
    ensures (forall p :: p in middle && Under(root + [dualName], p) ==> middle[p].renameError.None?) <==>
            (forall p :: p in start && Under(root + [dualName], p) && !Under(root + [singleName], p) ==> start[p].renameError.None?)
  {
    TargetsAreChildren(start, root + [singleName], root);
    forall p | Under(root + [dualName], p) && !Under(root + [singleName], p) ensures Unchanged(middle, start, p) {
      UnderBucket(root, dualName, p);
      FramedKeeps(middle, start, root + [singleName], root, p);
    }
  }
}
