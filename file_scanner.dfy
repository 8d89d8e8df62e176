/**
 * FileScanner: walks a directory tree top-down, prunes hidden and ignored directories, and
 * splits the visible files into supported and unsupported lists; it also derives the mirrored
 * output directory of each file.
 */
module FileScanning {
  import opened Wrappers
  import opened Strings
  import opened Paths
  import opened Config

  /** A directory entry: a file (with its size, or None when `stat` fails) or a directory. */
  datatype Entry = File(name: string, size: Option<nat>) | Dir(name: string, children: seq<Entry>)

  /** A name starting with '.'. */
  predicate Hidden(name: string) {
    name != [] && name[0] == '.'
  }

  /** A directory `scan` does not descend into. */
  predicate Pruned(name: string) {
    Hidden(name) || name == "__pycache__" || name == "node_modules"
  }

  /** Every entry of the tree has a non-empty name, as every real directory entry does. */
  predicate WellNamed(cs: seq<Entry>) {
    forall i :: 0 <= i < |cs| ==> cs[i].name != "" && (cs[i].Dir? ==> WellNamed(cs[i].children))
  }

  lemma WellNamedTail(cs: seq<Entry>)
    requires cs != [] && WellNamed(cs)
    ensures WellNamed(cs[1..])
  {
    forall i | 0 <= i < |cs[1..]| ensures cs[1..][i].name != "" && (cs[1..][i].Dir? ==> WellNamed(cs[1..][i].children)) {
      assert cs[1..][i] == cs[i + 1];
    }
  }

  /** One tuple of `os.walk`: a directory and the file entries directly in it. */
  datatype Yield = Yield(dir: Path, files: seq<Entry>)

  /** The file entries among `cs`, in directory order. */
  function FileEntries(cs: seq<Entry>): (r: seq<Entry>)
    ensures forall i :: 0 <= i < |r| ==> r[i].File?
  {
    if cs == [] then []
    else (if cs[0].File? then [cs[0]] else []) + FileEntries(cs[1..])
  }

  /** The tuples `os.walk` yields top-down for directory `p` with entries `cs`, after pruning. */
  function WalkDirs(p: Path, cs: seq<Entry>): (r: seq<Yield>)
    ensures |r| >= 1 && r[0] == Yield(p, FileEntries(cs))
    decreases cs, 1
  {
    [Yield(p, FileEntries(cs))] + SubWalks(p, cs)
  }

  /** The walks of the directories among `cs` that are not pruned, in order. */
  function SubWalks(p: Path, cs: seq<Entry>): seq<Yield>
    decreases cs, 0
  {
    if cs == [] then []
    else
      (if cs[0].Dir? && !Pruned(cs[0].name) then WalkDirs(Child(p, cs[0].name), cs[0].children) else [])
      + SubWalks(p, cs[1..])
  }

  /** A file as `scan` sees it: its path and its size. */
  datatype FileInfo = FileInfo(path: Path, size: Option<nat>)

  /** The files of one `os.walk` tuple that are not hidden, in order. */
  function YieldFiles(dir: Path, files: seq<Entry>): seq<FileInfo> {
    if files == [] then []
    else YieldFiles(dir, files[..|files| - 1]) + FileVisit(dir, files[|files| - 1])
  }

  /** What visiting one file entry contributes: nothing when it is hidden. */
  function FileVisit(dir: Path, e: Entry): seq<FileInfo> {
    if Hidden(e.name) then [] else [FileInfo(Child(dir, e.name), if e.File? then e.size else None)]
  }

  /** The files `scan` visits, over a sequence of `os.walk` tuples. */
  function Visible(ys: seq<Yield>): seq<FileInfo> {
    if ys == [] then [] else Visible(ys[..|ys| - 1]) + YieldFiles(ys[|ys| - 1].dir, ys[|ys| - 1].files)
  }

  lemma {:induction false} VisibleAppend(a: seq<Yield>, b: seq<Yield>)
    ensures Visible(a + b) == Visible(a) + Visible(b)
    decreases |b|
  {
    if b != [] {
      assert (a + b)[..|a + b| - 1] == a + b[..|b| - 1];
      VisibleAppend(a, b[..|b| - 1]);
    } else {
      assert a + b == a;
    }
  }

  lemma {:induction false} YieldFilesCons(dir: Path, e: Entry, rest: seq<Entry>)
    ensures YieldFiles(dir, [e] + rest) == FileVisit(dir, e) + YieldFiles(dir, rest)
    decreases |rest|
  {
    if rest != [] {
      assert ([e] + rest)[..|[e] + rest| - 1] == [e] + rest[..|rest| - 1];
      YieldFilesCons(dir, e, rest[..|rest| - 1]);
    }
  }

  lemma YieldFilesStep(dir: Path, files: seq<Entry>, j: nat)
    requires j < |files|
    ensures YieldFiles(dir, files[..j + 1]) == YieldFiles(dir, files[..j]) + FileVisit(dir, files[j])
  {
    assert files[..j + 1][..j] == files[..j];
  }

  /** Every file of the tree, pruned or not, in the order the walk would visit it. */
  function AllFiles(p: Path, cs: seq<Entry>): seq<FileInfo>
    decreases cs, 1
  {
    AllHere(p, cs) + AllBelow(p, cs)
  }

  function AllHere(p: Path, cs: seq<Entry>): seq<FileInfo> {
    if cs == [] then []
    else (if cs[0].File? then [FileInfo(Child(p, cs[0].name), cs[0].size)] else []) + AllHere(p, cs[1..])
  }

  function AllBelow(p: Path, cs: seq<Entry>): seq<FileInfo>
    decreases cs, 0
  {
    if cs == [] then []
    else (if cs[0].Dir? then AllFiles(Child(p, cs[0].name), cs[0].children) else []) + AllBelow(p, cs[1..])
  }

  /**
   * A file `scan` classifies, relative to the scanned root: strictly below it, not hidden,
   * and under no pruned directory.
   */
  predicate Allowed(root: Path, f: Path) {
    |root.parts| < |f.parts| && !Hidden(f.parts[|f.parts| - 1]) &&
    forall k :: |root.parts| <= k < |f.parts| - 1 ==> !Pruned(f.parts[k])
  }

  function FilterAllowed(root: Path, xs: seq<FileInfo>): seq<FileInfo> {
    if xs == [] then []
    else (if Allowed(root, xs[0].path) then [xs[0]] else []) + FilterAllowed(root, xs[1..])
  }

  lemma {:induction false} FilterAllowedAppend(root: Path, a: seq<FileInfo>, b: seq<FileInfo>)
    ensures FilterAllowed(root, a + b) == FilterAllowed(root, a) + FilterAllowed(root, b)
  {
    if a != [] {
      assert (a + b)[1..] == a[1..] + b;
      FilterAllowedAppend(root, a[1..], b);
    } else {
      assert a + b == b;
    }
  }

  /** Every file of a subtree lies strictly below the subtree's directory. */
  lemma {:induction false} AllFilesBelow(p: Path, cs: seq<Entry>)
    requires WellNamed(cs)
    ensures forall i :: 0 <= i < |AllFiles(p, cs)| ==>
      p.parts < AllFiles(p, cs)[i].path.parts
    decreases cs, 1
  {
    AllHereBelow(p, cs);
    AllBelowBelow(p, cs);
  }

  lemma {:induction false} AllHereBelow(p: Path, cs: seq<Entry>)
    requires WellNamed(cs)
    ensures forall i :: 0 <= i < |AllHere(p, cs)| ==> p.parts < AllHere(p, cs)[i].path.parts
  {
    if cs != [] {
      WellNamedTail(cs);
      AllHereBelow(p, cs[1..]);
    }
  }

  lemma {:induction false} AllBelowBelow(p: Path, cs: seq<Entry>)
    requires WellNamed(cs)
    ensures forall i :: 0 <= i < |AllBelow(p, cs)| ==> p.parts < AllBelow(p, cs)[i].path.parts
    decreases cs, 0
  {
    if cs != [] {
      WellNamedTail(cs);
      AllBelowBelow(p, cs[1..]);
      if cs[0].Dir? {
        var q := Child(p, cs[0].name);
        AllFilesBelow(q, cs[0].children);
      }
    }
  }

  /** A pruned directory contributes none of its files, however deep. */
  lemma PrunedContributesNothing(root: Path, q: Path, cs: seq<Entry>)
    requires WellNamed(cs)
    requires |root.parts| < |q.parts| && root.parts <= q.parts && Pruned(q.parts[|q.parts| - 1])
    ensures FilterAllowed(root, AllFiles(q, cs)) == []
  {
    AllFilesBelow(q, cs);
    NoneAllowed(root, q, AllFiles(q, cs));
  }

  lemma {:induction false} NoneAllowed(root: Path, q: Path, xs: seq<FileInfo>)
    requires |root.parts| < |q.parts| && Pruned(q.parts[|q.parts| - 1])
    requires forall i :: 0 <= i < |xs| ==> q.parts < xs[i].path.parts
    ensures FilterAllowed(root, xs) == []
  {
    if xs != [] {
      var f := xs[0].path;
      assert f.parts[|q.parts| - 1] == q.parts[|q.parts| - 1];
      NoneAllowed(root, q, xs[1..]);
    }
  }

  /** Files directly in `p`: one below `p` is allowed exactly when its name is not hidden. */
  lemma {:induction false} HereIsAllowed(root: Path, p: Path, cs: seq<Entry>)
    requires WellNamed(cs)
    requires root.parts <= p.parts && forall k :: |root.parts| <= k < |p.parts| ==> !Pruned(p.parts[k])
    ensures YieldFiles(p, FileEntries(cs)) == FilterAllowed(root, AllHere(p, cs))
  {
    if cs != [] {
      WellNamedTail(cs);
      HereIsAllowed(root, p, cs[1..]);
      var c := cs[0];
      if c.File? {
        var f := Child(p, c.name);
        assert f.parts == p.parts + [c.name];
        assert Allowed(root, f) <==> !Hidden(c.name);
        YieldFilesCons(p, c, FileEntries(cs[1..]));
        FilterAllowedAppend(root, [FileInfo(f, c.size)], AllHere(p, cs[1..]));
      } else {
        assert [] + AllHere(p, cs[1..]) == AllHere(p, cs[1..]);
        assert [] + FileEntries(cs[1..]) == FileEntries(cs[1..]);
      }
    }
  }

  /**
   * The files `scan` visits under `p`, in walk order, are exactly the tree's files that lie under
   * no pruned directory and are not hidden: pruning loses nothing else and lets nothing else in.
   */
  lemma {:induction false} WalkIsAllowedFiles(root: Path, p: Path, cs: seq<Entry>)
    requires WellNamed(cs)
    requires root.parts <= p.parts && forall k :: |root.parts| <= k < |p.parts| ==> !Pruned(p.parts[k])
    ensures Visible(WalkDirs(p, cs)) == FilterAllowed(root, AllFiles(p, cs))
    decreases cs, 2
  {
    var y := Yield(p, FileEntries(cs));
    var here, below := YieldFiles(p, FileEntries(cs)), Visible(SubWalks(p, cs));
    assert WalkDirs(p, cs) == [y] + SubWalks(p, cs);
    VisibleAppend([y], SubWalks(p, cs));
    VisibleSingle(y);
    assert Visible(WalkDirs(p, cs)) == here + below;
    HereIsAllowed(root, p, cs);
    BelowIsAllowed(root, p, cs);
    FilterAllowedAppend(root, AllHere(p, cs), AllBelow(p, cs));
  }

  lemma VisibleSingle(y: Yield)
    ensures Visible([y]) == YieldFiles(y.dir, y.files)
  {
    assert [y][..0] == [];
  }

  lemma {:induction false} BelowIsAllowed(root: Path, p: Path, cs: seq<Entry>)
    requires WellNamed(cs)
    requires root.parts <= p.parts && forall k :: |root.parts| <= k < |p.parts| ==> !Pruned(p.parts[k])
    ensures Visible(SubWalks(p, cs)) == FilterAllowed(root, AllBelow(p, cs))
    decreases cs, 1
  {
    if cs != [] {
      WellNamedTail(cs);
      BelowIsAllowed(root, p, cs[1..]);
      var c := cs[0];
      var walked := if c.Dir? && !Pruned(c.name) then WalkDirs(Child(p, c.name), c.children) else [];
      var all := if c.Dir? then AllFiles(Child(p, c.name), c.children) else [];
      VisibleAppend(walked, SubWalks(p, cs[1..]));
      FilterAllowedAppend(root, all, AllBelow(p, cs[1..]));
      FirstIsAllowed(root, p, cs);
    }
  }

  /** What the first entry of `cs` contributes below `p`: its walk, or nothing when pruned. */
  lemma {:induction false} FirstIsAllowed(root: Path, p: Path, cs: seq<Entry>)
    requires cs != [] && WellNamed(cs)
    requires root.parts <= p.parts && forall k :: |root.parts| <= k < |p.parts| ==> !Pruned(p.parts[k])
    ensures Visible(if cs[0].Dir? && !Pruned(cs[0].name) then WalkDirs(Child(p, cs[0].name), cs[0].children) else [])
      == FilterAllowed(root, if cs[0].Dir? then AllFiles(Child(p, cs[0].name), cs[0].children) else [])
    decreases cs, 0
  {
    var c := cs[0];
    if c.Dir? {
      assert c.name != "" && WellNamed(c.children);
      var q := Child(p, c.name);
      assert q.parts == p.parts + [c.name];
      if Pruned(c.name) {
        PrunedContributesNothing(root, q, c.children);
      } else {
        WalkIsAllowedFiles(root, q, c.children);
      }
    }
  }

  // ---------------------------------------------------------------------------------------
  // Classification

  /** The paths of `xs`, in order. */
  function PathsOf(xs: seq<FileInfo>): seq<Path> {
    if xs == [] then [] else PathsOf(xs[..|xs| - 1]) + [xs[|xs| - 1].path]
  }

  /** The supported files among `xs`, in order. */
  function SupportedPaths(xs: seq<FileInfo>): seq<Path> {
    if xs == [] then []
    else SupportedPaths(xs[..|xs| - 1]) + (if IsSupportedFile(xs[|xs| - 1].path) then [xs[|xs| - 1].path] else [])
  }

  /** The unsupported files among `xs`, in order. */
  function UnsupportedPaths(xs: seq<FileInfo>): seq<Path> {
    if xs == [] then []
    else UnsupportedPaths(xs[..|xs| - 1]) + (if IsSupportedFile(xs[|xs| - 1].path) then [] else [xs[|xs| - 1].path])
  }

  /** Sum of the sizes of the supported files whose size could be read. */
  function SupportedSize(xs: seq<FileInfo>): nat {
    if xs == [] then 0
    else
      var x := xs[|xs| - 1];
      SupportedSize(xs[..|xs| - 1]) + (if IsSupportedFile(x.path) && x.size.Some? then x.size.value else 0)
  }

  /**
   * Every visited file lands in exactly one of the two lists: the supported list holds exactly the
   * supported ones, the unsupported list the rest, and together they account for every file.
   */
  lemma {:induction false} ClassificationPartitions(xs: seq<FileInfo>)
    ensures |SupportedPaths(xs)| + |UnsupportedPaths(xs)| == |xs|
    ensures multiset(SupportedPaths(xs)) + multiset(UnsupportedPaths(xs)) == multiset(PathsOf(xs))
    ensures forall f :: f in SupportedPaths(xs) <==> f in PathsOf(xs) && IsSupportedFile(f)
    ensures forall f :: f in UnsupportedPaths(xs) <==> f in PathsOf(xs) && !IsSupportedFile(f)
  {
    if xs != [] {
      var init := xs[..|xs| - 1];
      ClassificationPartitions(init);
      assert PathsOf(xs) == PathsOf(init) + [xs[|xs| - 1].path];
    }
  }

  /** Visiting one more file extends each list by at most that file. */
  lemma ClassifyOne(xs: seq<FileInfo>, x: FileInfo)
    ensures SupportedPaths(xs + [x]) == SupportedPaths(xs) + (if IsSupportedFile(x.path) then [x.path] else [])
    ensures UnsupportedPaths(xs + [x]) == UnsupportedPaths(xs) + (if IsSupportedFile(x.path) then [] else [x.path])
    ensures SupportedSize(xs + [x]) == SupportedSize(xs) + (if IsSupportedFile(x.path) && x.size.Some? then x.size.value else 0)
    ensures PathsOf(xs + [x]) == PathsOf(xs) + [x.path]
  {
    assert (xs + [x])[..|xs|] == xs;
  }

  /** What `scan` has gathered: the two lists, the total size and the progress calls. */
  datatype Gathered = Gathered(supported: seq<Path>, unsupported: seq<Path>, size: nat, progressed: seq<Path>)

  /** What `scan` has gathered after visiting `xs`. */
  function GatheredOf(xs: seq<FileInfo>, hasProgressCallback: bool): Gathered {
    Gathered(SupportedPaths(xs), UnsupportedPaths(xs), SupportedSize(xs),
             if hasProgressCallback then PathsOf(xs) else [])
  }

  /** Recording one visible file `x`, which is supported exactly when `supported` holds. */
  function Record(g: Gathered, x: FileInfo, supported: bool, hasProgressCallback: bool): Gathered {
    Gathered(
      if supported then g.supported + [x.path] else g.supported,
      if supported then g.unsupported else g.unsupported + [x.path],
      if supported && x.size.Some? then g.size + x.size.value else g.size,
      if hasProgressCallback then g.progressed + [x.path] else g.progressed)
  }

  /** Visiting one file entry of directory `dir`: a hidden file leaves everything unchanged. */
  function Visit(g: Gathered, dir: Path, e: Entry, hasProgressCallback: bool): Gathered {
    if Hidden(e.name) then g
    else
      var x := FileInfo(Child(dir, e.name), if e.File? then e.size else None);
      Record(g, x, IsSupportedFile(x.path), hasProgressCallback)
  }

  /** Visiting the file entries of one `os.walk` tuple, in order. */
  function VisitAll(g: Gathered, dir: Path, files: seq<Entry>, hasProgressCallback: bool): Gathered {
    if files == [] then g
    else Visit(VisitAll(g, dir, files[..|files| - 1], hasProgressCallback), dir, files[|files| - 1], hasProgressCallback)
  }

  /** Visiting every tuple of the walk, starting from empty lists. */
  function WalkAll(ys: seq<Yield>, hasProgressCallback: bool): Gathered {
    if ys == [] then Gathered([], [], 0, [])
    else VisitAll(WalkAll(ys[..|ys| - 1], hasProgressCallback), ys[|ys| - 1].dir, ys[|ys| - 1].files, hasProgressCallback)
  }

  lemma VisitAllStep(g: Gathered, dir: Path, files: seq<Entry>, j: nat, hasProgressCallback: bool)
    requires j < |files|
    ensures VisitAll(g, dir, files[..j + 1], hasProgressCallback)
      == Visit(VisitAll(g, dir, files[..j], hasProgressCallback), dir, files[j], hasProgressCallback)
  {
    assert files[..j + 1][..j] == files[..j];
  }

  lemma WalkAllStep(ys: seq<Yield>, i: nat, hasProgressCallback: bool)
    requires i < |ys|
    ensures WalkAll(ys[..i + 1], hasProgressCallback)
      == VisitAll(WalkAll(ys[..i], hasProgressCallback), ys[i].dir, ys[i].files, hasProgressCallback)
  {
    assert ys[..i + 1][..i] == ys[..i];
  }

  /** Visiting one entry gathers exactly what classifying the files seen so far and it gives. */
  lemma VisitGathers(seen: seq<FileInfo>, dir: Path, e: Entry, hasProgressCallback: bool)
    ensures Visit(GatheredOf(seen, hasProgressCallback), dir, e, hasProgressCallback)
      == GatheredOf(seen + FileVisit(dir, e), hasProgressCallback)
  {
    if Hidden(e.name) {
      assert seen + FileVisit(dir, e) == seen;
    } else {
      var x := FileInfo(Child(dir, e.name), if e.File? then e.size else None);
      assert seen + FileVisit(dir, e) == seen + [x];
      GatherStep(seen, x, hasProgressCallback);
    }
  }

  lemma GatherStep(xs: seq<FileInfo>, x: FileInfo, hasProgressCallback: bool)
    ensures GatheredOf(xs + [x], hasProgressCallback)
      == Record(GatheredOf(xs, hasProgressCallback), x, IsSupportedFile(x.path), hasProgressCallback)
  {
    ClassifyOne(xs, x);
  }

  /** The inner loop gathers what classifying its non-hidden files gives. */
  lemma {:induction false} VisitAllGathers(seen: seq<FileInfo>, dir: Path, files: seq<Entry>, hasProgressCallback: bool)
    ensures VisitAll(GatheredOf(seen, hasProgressCallback), dir, files, hasProgressCallback)
      == GatheredOf(seen + YieldFiles(dir, files), hasProgressCallback)
    decreases |files|
  {
    if files == [] {
      assert seen + YieldFiles(dir, files) == seen;
    } else {
      var init, last := files[..|files| - 1], files[|files| - 1];
      var before := seen + YieldFiles(dir, init);
      VisitAllGathers(seen, dir, init, hasProgressCallback);
      VisitGathers(before, dir, last, hasProgressCallback);
      assert YieldFiles(dir, files) == YieldFiles(dir, init) + FileVisit(dir, last);
      assert seen + YieldFiles(dir, files) == before + FileVisit(dir, last);
    }
  }

  /** The whole walk gathers what classifying the visible files gives. */
  lemma {:induction false} WalkAllGathers(ys: seq<Yield>, hasProgressCallback: bool)
    ensures WalkAll(ys, hasProgressCallback) == GatheredOf(Visible(ys), hasProgressCallback)
    decreases |ys|
  {
    if ys == [] {
      assert GatheredOf([], hasProgressCallback) == Gathered([], [], 0, []);
    } else {
      var init := ys[..|ys| - 1];
      WalkAllGathers(init, hasProgressCallback);
      VisitAllGathers(Visible(init), ys[|ys| - 1].dir, ys[|ys| - 1].files, hasProgressCallback);
    }
  }

  // ---------------------------------------------------------------------------------------
  // _count_file_types

  /** `counts.get(ext, 0)` */
  function CountOf(counts: seq<(string, nat)>, ext: string): nat {
    if counts == [] then 0
    else if counts[0].0 == ext then counts[0].1
    else CountOf(counts[1..], ext)
  }

  /** `counts[ext] = counts.get(ext, 0) + 1`, keeping insertion order. */
  function Bump(counts: seq<(string, nat)>, ext: string): seq<(string, nat)> {
    if counts == [] then [(ext, 1)]
    else if counts[0].0 == ext then [(ext, counts[0].1 + 1)] + counts[1..]
    else [counts[0]] + Bump(counts[1..], ext)
  }

  function SumCounts(counts: seq<(string, nat)>): nat {
    if counts == [] then 0 else counts[0].1 + SumCounts(counts[1..])
  }

  /** The file-type key of a path: its lower-cased suffix. */
  function ExtKey(f: Path): string {
    Lower(Suffix(Name(f)))
  }

  /** The dictionary `_count_file_types` builds from `files`. */
  function FileTypeCounts(files: seq<Path>): seq<(string, nat)> {
    if files == [] then [] else Bump(FileTypeCounts(files[..|files| - 1]), ExtKey(files[|files| - 1]))
  }

  /** The number of `files` whose key is `ext`. */
  function FilesWithKey(files: seq<Path>, ext: string): nat {
    if files == [] then 0
    else FilesWithKey(files[..|files| - 1], ext) + (if ExtKey(files[|files| - 1]) == ext then 1 else 0)
  }

  lemma {:induction false} BumpCounts(counts: seq<(string, nat)>, ext: string, other: string)
    ensures SumCounts(Bump(counts, ext)) == SumCounts(counts) + 1
    ensures CountOf(Bump(counts, ext), other) == CountOf(counts, other) + (if other == ext then 1 else 0)
  {
    if counts != [] && counts[0].0 != ext {
      BumpCounts(counts[1..], ext, other);
      assert ([counts[0]] + Bump(counts[1..], ext))[1..] == Bump(counts[1..], ext);
    }
    if counts != [] && counts[0].0 == ext {
      assert ([(ext, counts[0].1 + 1)] + counts[1..])[1..] == counts[1..];
    }
  }

  /**
   * Each key's count is the number of files with that lower-cased suffix, and the counts sum to
   * the number of files.
   */
  lemma {:induction false} FileTypeCountsCorrect(files: seq<Path>, ext: string)
    ensures CountOf(FileTypeCounts(files), ext) == FilesWithKey(files, ext)
    ensures SumCounts(FileTypeCounts(files)) == |files|
  {
    if files != [] {
      FileTypeCountsCorrect(files[..|files| - 1], ext);
      BumpCounts(FileTypeCounts(files[..|files| - 1]), ExtKey(files[|files| - 1]), ext);
    }
  }

  /** What `scan` returns. */
  datatype ScanResults = ScanResults(
    supportedCount: nat,
    unsupportedCount: nat,
    totalSize: nat,
    supportedFiles: seq<Path>,
    fileTypes: seq<(string, nat)>)

  class FileScanner {
    const rootPath: Path
    var supportedFiles: seq<Path>
    var unsupportedFiles: seq<Path>
    var totalSize: nat

    constructor (rootPath: Path)
      ensures this.rootPath == rootPath
      ensures supportedFiles == [] && unsupportedFiles == [] && totalSize == 0
    {
      this.rootPath := rootPath;
      supportedFiles := [];
      unsupportedFiles := [];
      totalSize := 0;
    }

    /**
     * `scan`: `root` is what lies at `rootPath` (None when nothing does). `progressed` lists the
     * calls made to the progress callback, which happen only when `hasProgressCallback` holds.
     * Each scan starts from empty lists, so scanning again never accumulates.
     */
    method Scan(root: Option<Entry>, hasProgressCallback: bool) returns (r: Result<ScanResults>, progressed: seq<Path>)
      modifies this
      ensures root.None? ==>
        r == Err("Directory does not exist: " + ToString(rootPath)) && progressed == [] && unchanged(this)
      ensures root.Some? && root.value.File? ==>
        r == Err("Not a directory: " + ToString(rootPath)) && progressed == [] && unchanged(this)
      ensures root.Some? && root.value.Dir? ==>
        && State(progressed) == GatheredOf(Visible(WalkDirs(rootPath, root.value.children)), hasProgressCallback)
        && r == Ok(ScanResults(|supportedFiles|, |unsupportedFiles|, totalSize, supportedFiles,
                               FileTypeCounts(supportedFiles)))
    {
      progressed := [];
      if root.None? {
        return Err("Directory does not exist: " + ToString(rootPath)), progressed;
      }
      if !root.value.Dir? {
        return Err("Not a directory: " + ToString(rootPath)), progressed;
      }
      supportedFiles := [];
      unsupportedFiles := [];
      totalSize := 0;
      var walk := WalkDirs(rootPath, root.value.children);
      var i := 0;
      while i < |walk|
        invariant 0 <= i <= |walk|
        invariant State(progressed) == WalkAll(walk[..i], hasProgressCallback)
      {
        WalkAllStep(walk, i, hasProgressCallback);
        progressed := ScanDirectory(walk[i].dir, walk[i].files, hasProgressCallback, progressed);
        i := i + 1;
      }
      assert walk[..i] == walk;
      WalkAllGathers(walk, hasProgressCallback);
      var fileTypes := CountFileTypes();
      r := Ok(ScanResults(|supportedFiles|, |unsupportedFiles|, totalSize, supportedFiles, fileTypes));
    }

    /** The scanner's lists and size, with the progress calls made so far. */
    function State(progressed: seq<Path>): Gathered
      reads this
    {
      Gathered(supportedFiles, unsupportedFiles, totalSize, progressed)
    }

    /** The inner loop of `scan`, over the files of one `os.walk` tuple. */
    method ScanDirectory(dir: Path, files: seq<Entry>, hasProgressCallback: bool, progressed: seq<Path>)
      returns (progressed': seq<Path>)
      modifies this`supportedFiles, this`unsupportedFiles, this`totalSize
      ensures State(progressed') == VisitAll(old(State(progressed)), dir, files, hasProgressCallback)
    {
      progressed' := progressed;
      var j := 0;
      assert files[..0] == [];
      while j < |files|
        invariant 0 <= j <= |files|
        invariant State(progressed') == VisitAll(old(State(progressed)), dir, files[..j], hasProgressCallback)
      {
        VisitAllStep(old(State(progressed)), dir, files, j, hasProgressCallback);
        progressed' := VisitFile(dir, files[j], hasProgressCallback, progressed');
        j := j + 1;
      }
      assert files[..j] == files;
    }

    /** One pass of the inner loop of `scan`: skip a hidden file, otherwise classify it. */
    method VisitFile(dir: Path, file: Entry, hasProgressCallback: bool, progressed: seq<Path>)
      returns (progressed': seq<Path>)
      modifies this`supportedFiles, this`unsupportedFiles, this`totalSize
      ensures State(progressed') == Visit(old(State(progressed)), dir, file, hasProgressCallback)
    {
      progressed' := progressed;
      if Hidden(file.name) {
        return;
      }
      var filepath := Child(dir, file.name);
      ghost var x := FileInfo(filepath, if file.File? then file.size else None);
      var supported := IsSupportedFile(filepath);
      ghost var want := Record(State(progressed), x, supported, hasProgressCallback);
      assert Visit(State(progressed), dir, file, hasProgressCallback) == want;
      if supported {
        supportedFiles := supportedFiles + [filepath];
        if file.File? && file.size.Some? {
          totalSize := totalSize + file.size.value;
        }
      } else {
        unsupportedFiles := unsupportedFiles + [filepath];
      }
      if hasProgressCallback {
        progressed' := progressed' + [filepath];
      }
    }

    /** `_count_file_types` */
    method CountFileTypes() returns (counts: seq<(string, nat)>)
      ensures counts == FileTypeCounts(supportedFiles)
    {
      counts := [];
      var i := 0;
      while i < |supportedFiles|
        invariant 0 <= i <= |supportedFiles|
        invariant counts == FileTypeCounts(supportedFiles[..i])
      {
        assert supportedFiles[..i + 1][..i] == supportedFiles[..i];
        counts := Bump(counts, ExtKey(supportedFiles[i]));
        i := i + 1;
      }
      assert supportedFiles[..i] == supportedFiles;
    }

    /** `get_relative_path`: the path below the root, or the path itself when it is not below it. */
    function GetRelativePath(filepath: Path): Path {
      match RelativeTo(filepath, rootPath)
      case Some(rel) => rel
      case None => filepath
    }

    /** `create_mirrored_output_path` */
    function CreateMirroredOutputPath(filepath: Path, outputBase: Path): Path {
      JoinPath(outputBase, Parent(GetRelativePath(filepath)))
    }

    /**
     * A file below the root maps to `outputBase` followed by the directories between the root
     * and the file; so a file directly in the root maps to `outputBase` itself.
     */
    lemma MirroredUnderRoot(filepath: Path, outputBase: Path)
      requires filepath.absolute == rootPath.absolute && rootPath.parts < filepath.parts
      ensures CreateMirroredOutputPath(filepath, outputBase) ==
        Path(outputBase.absolute, outputBase.parts + filepath.parts[|rootPath.parts|..|filepath.parts| - 1])
      ensures |filepath.parts| == |rootPath.parts| + 1 ==> CreateMirroredOutputPath(filepath, outputBase) == outputBase
    {
      var rel := Path(false, filepath.parts[|rootPath.parts|..]);
      assert GetRelativePath(filepath) == rel;
      assert Parent(rel).parts == filepath.parts[|rootPath.parts|..|filepath.parts| - 1];
    }

    /**
     * A path outside the root is used as its own relative path: its output directory is
     * `outputBase / filepath.parent`, which is `filepath.parent` itself when `filepath` is absolute.
     */
    lemma MirroredOutsideRoot(filepath: Path, outputBase: Path)
      requires !(filepath.absolute == rootPath.absolute && rootPath.parts <= filepath.parts)
      ensures CreateMirroredOutputPath(filepath, outputBase) == JoinPath(outputBase, Parent(filepath))
      ensures filepath.absolute ==> CreateMirroredOutputPath(filepath, outputBase) == Parent(filepath)
    {
    }
  }
}
