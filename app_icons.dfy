/**
 * The integer rules of the app-icon build script: which exported logo serves each icon size
 * (`get_best_source`), how big the logo is drawn and where (`resize_with_padding_and_corners`),
 * the corner radius (`add_rounded_corners`), and how the logos are found (`load_sources`).
 * Pixels, resampling and the ICO/ICNS encoders are not modelled: an image is named by the file
 * it was loaded from.
 */
module AppIcons {
  import opened Wrappers

  /** `CORNER_RADIUS_PERCENT` */
  const CornerRadiusPercent: nat := 22

  /** `PADDING_PERCENT` */
  const PaddingPercent: nat := 25

  /** `ICO_SIZES` */
  const IcoSizes: seq<nat> := [256, 128, 64, 48]

  // ---------------------------------------------------------------------------------------
  // Size arithmetic
  // ---------------------------------------------------------------------------------------

  /**
   * `int(size * radius_percent / 100)` in `add_rounded_corners`. The quotient is never negative,
   * so truncation is the floor.
   */
  function CornerRadius(size: nat, percent: nat): nat {
    size * percent / 100
  }

  /** `int(size * (100 - PADDING_PERCENT) / 100)` in `resize_with_padding_and_corners`. */
  function LogoSize(size: nat): nat {
    size * (100 - PaddingPercent) / 100
  }

  /** `(size - logo_size) // 2`: where the logo is pasted, on both axes. */
  function Offset(size: nat): int {
    (size - LogoSize(size)) / 2
  }

  /** The logo is three quarters of the icon, rounded down, and never larger than the icon. */
  lemma LogoFits(size: nat)
    ensures LogoSize(size) <= size
    ensures 4 * LogoSize(size) <= 3 * size < 4 * LogoSize(size) + 4
  {
  }

  /**
   * The logo is centred: the margins left and right (top and bottom) are `Offset(size)` and
   * either the same or one pixel more, and the logo lies inside the canvas.
   */
  lemma LogoCentred(size: nat)
    ensures 0 <= Offset(size)
    ensures Offset(size) + LogoSize(size) <= size
    ensures var right := size - Offset(size) - LogoSize(size);
      right == Offset(size) || right == Offset(size) + 1
  {
    LogoFits(size);
  }

  /**
   * With the 22% radius the two rounded corners of one side never meet, on the logo and on the
   * full icon alike.
   */
  lemma CornersApart(size: nat)
    ensures 2 * CornerRadius(size, CornerRadiusPercent) <= size
    ensures 2 * CornerRadius(LogoSize(size), CornerRadiusPercent) <= LogoSize(size)
  {
  }

  // ---------------------------------------------------------------------------------------
  // get_best_source
  // ---------------------------------------------------------------------------------------

  predicate IsMax(m: int, s: set<int>) {
    m in s && forall y :: y in s ==> y <= m
  }

  lemma {:induction false} MaxExists(s: set<int>)
    requires s != {}
    ensures exists m :: IsMax(m, s)
    decreases |s|
  {
    EmptyOrMember(s);
    var x :| x in s;
    var rest := s - {x};
    if rest != {} {
      MaxExists(rest);
      var m :| IsMax(m, rest);
      var top := if x <= m then m else x;
      forall y | y in s ensures y <= top {
        if y != x {
          assert y in rest;
        }
      }
      assert IsMax(top, s);
    } else {
      assert s == {x};
      assert IsMax(x, s);
    }
  }

  /** A set is empty or has a member. */
  lemma EmptyOrMember(s: set<int>)
    ensures s == {} || exists x :: x in s
  {
    if forall x :: x !in s {
      assert s == {};
    }
  }

  predicate Descending(a: seq<int>) {
    forall i, j :: 0 <= i < j < |a| ==> a[i] > a[j]
  }

  /** `sorted(keys, reverse=True)` for a set of distinct keys. */
  function SortedDescending(s: set<int>): (r: seq<int>)
    ensures |r| == |s|
    ensures forall x :: x in s <==> x in r
    ensures Descending(r)
    decreases |s|
  {
    if s == {} then []
    else
      MaxExists(s);
      var m :| IsMax(m, s);
      var rest := SortedDescending(s - {m});
      ConsDescending(m, rest);
      [m] + rest
  }

  /** A key above every key of a descending list can go in front of it. */
  lemma ConsDescending(m: int, rest: seq<int>)
    requires Descending(rest) && forall x :: x in rest ==> x < m
    ensures Descending([m] + rest)
  {
    forall i, j | 0 <= i < j < |[m] + rest| ensures ([m] + rest)[i] > ([m] + rest)[j] {
      assert ([m] + rest)[j] == rest[j - 1] && rest[j - 1] in rest;
      if i > 0 {
        assert ([m] + rest)[i] == rest[i - 1];
      }
    }
  }

  /** The first key of a descending list is its largest. */
  lemma FirstIsLargest(a: seq<int>)
    requires a != [] && Descending(a)
    ensures forall x :: x in a ==> x <= a[0]
  {
    forall x | x in a ensures x <= a[0] {
      var j :| 0 <= j < |a| && a[j] == x;
    }
  }

  /**
   * `for src_size in reversed(available_sizes): if src_size >= target_size: return ...` over the
   * first `n` entries: the first size reached from the end that is large enough.
   */
  function FromSmallest(available: seq<int>, target: int, n: nat): (r: Option<int>)
    requires n <= |available|
    ensures r.Some? ==> r.value in available[..n] && r.value >= target
    ensures r.None? ==> forall i :: 0 <= i < n ==> available[i] < target
  {
    if n == 0 then None
    else if available[n - 1] >= target then Some(available[n - 1])
    else FromSmallest(available, target, n - 1)
  }

  /** The key `get_best_source` looks up, or `None` when `sources` is empty (the `IndexError`). */
  function BestSize<T>(target: int, sources: map<int, T>): (r: Option<int>)
    ensures r.Some? <==> sources != map[]
    ensures r.Some? ==> r.value in sources
  {
    var available := SortedDescending(sources.Keys);
    match FromSmallest(available, target, |available|)
    case Some(k) => Some(k)
    case None =>
      if available == [] then
        assert sources.Keys == {};
        None
      else Some(available[0])
  }

  /** `get_best_source(target_size, sources)`; an empty `sources` raises `IndexError`. */
  function GetBestSource<T>(target: int, sources: map<int, T>): (r: Result<T>)
    ensures r.Ok? <==> sources != map[]
  {
    match BestSize(target, sources)
    case Some(k) => Ok(sources[k])
    case None => Err("list index out of range")
  }

  /**
   * When some source is at least as large as the target, the one picked is the smallest such
   * source, so an icon is never upscaled when it need not be.
   */
  lemma {:induction false} BestIsSmallestLargeEnough<T>(target: int, sources: map<int, T>)
    requires exists k :: k in sources && k >= target
    ensures BestSize(target, sources).Some?
    ensures var b := BestSize(target, sources).value;
      b >= target && forall k :: k in sources && k >= target ==> b <= k
  {
    var available := SortedDescending(sources.Keys);
    var k0 :| k0 in sources && k0 >= target;
    assert k0 in available;
    FromSmallestIsLeast(available, target, |available|);
    forall k | k in sources && k >= target
      ensures FromSmallest(available, target, |available|).value <= k
    {
      assert k in available;
    }
  }

  /**
   * On a descending list the scan from the end stops at the smallest large-enough size.
   */
  lemma {:induction false} FromSmallestIsLeast(available: seq<int>, target: int, n: nat)
    requires n <= |available| && Descending(available)
    ensures forall j :: 0 <= j < n && available[j] >= target ==>
      FromSmallest(available, target, n).Some? && FromSmallest(available, target, n).value <= available[j]
  {
    if n > 0 && available[n - 1] < target {
      FromSmallestIsLeast(available, target, n - 1);
    }
  }

  /** When every source is smaller than the target, the largest source is picked. */
  lemma BestFallsBackToLargest<T>(target: int, sources: map<int, T>)
    requires sources != map[]
    requires forall k :: k in sources ==> k < target
    ensures BestSize(target, sources).Some?
    ensures var b := BestSize(target, sources).value;
      forall k :: k in sources ==> k <= b
  {
    var available := SortedDescending(sources.Keys);
    assert forall i :: 0 <= i < |available| ==> available[i] in sources;
    assert FromSmallest(available, target, |available|).None?;
    FirstIsLargest(available);
  }

  // ---------------------------------------------------------------------------------------
  // load_sources
  // ---------------------------------------------------------------------------------------

  /** `size_files`, in its dictionary order. */
  const SizeFiles: seq<(nat, string)> := [
    (1024, "docprep_icon_1024.png"),
    (512, "docprep_icon_512.png"),
    (256, "docprep_icon_256.png"),
    (128, "docprep_icon_128.png")
  ]

  /** A PNG file of the source directory: its name, its size on disk and its pixel dimensions. */
  datatype PngFile = PngFile(name: string, byteSize: nat, width: nat, height: nat)

  /**
   * `max(png_files, key=lambda f: f.stat().st_size)`: Python's `max` keeps the first of several
   * equally large files, so the index it picks holds a largest file and every earlier file is
   * strictly smaller.
   */
  function LargestAt(files: seq<PngFile>): (p: nat)
    requires files != []
    ensures p < |files|
    ensures forall i :: 0 <= i < |files| ==> files[i].byteSize <= files[p].byteSize
    ensures forall i :: 0 <= i < p ==> files[i].byteSize < files[p].byteSize
  {
    if |files| == 1 then 0
    else
      var q := LargestAt(files[..|files| - 1]);
      assert forall i :: 0 <= i < |files| - 1 ==> files[..|files| - 1][i] == files[i];
      if files[|files| - 1].byteSize > files[q].byteSize then |files| - 1 else q
  }

  /** The file `max` returns. */
  function Largest(files: seq<PngFile>): (r: PngFile)
    requires files != []
    ensures r in files
    ensures forall i :: 0 <= i < |files| ==> files[i].byteSize <= r.byteSize
  {
    files[LargestAt(files)]
  }

  function Max(a: nat, b: nat): nat {
    if a >= b then a else b
  }

  /**
   * The key a fallback PNG is stored under: its width when it is square, else the larger side.
   * Both branches of `load_sources` come to the larger side.
   */
  function FallbackKey(f: PngFile): (r: nat)
    ensures r == Max(f.width, f.height)
    ensures r >= f.width && r >= f.height && (r == f.width || r == f.height)
  {
    if f.width == f.height then f.width else Max(f.width, f.height)
  }

  /** The dictionary `load_sources` builds from the named files that exist, in `SizeFiles` order. */
  function NamedSources(present: set<string>, n: nat): map<nat, string>
    requires n <= |SizeFiles|
  {
    if n == 0 then map[]
    else
      var (size, filename) := SizeFiles[n - 1];
      var m := NamedSources(present, n - 1);
      if filename in present then m[size := filename] else m
  }

  /** What `load_sources` returns, the images named by their files. */
  function SourcesOf(present: set<string>, pngs: seq<PngFile>): map<nat, string> {
    var named := NamedSources(present, |SizeFiles|);
    if named != map[] then named
    else if pngs == [] then map[]
    else
      var largest := Largest(pngs);
      map[FallbackKey(largest) := largest.name]
  }

  /**
   * `load_sources`: `present` holds the names in the source directory that exist and `pngs` the
   * result of `glob("*.png")`, in its order.
   */
  method LoadSources(present: set<string>, pngs: seq<PngFile>) returns (sources: map<nat, string>)
    ensures sources == SourcesOf(present, pngs)
  {
    sources := map[];
    var i := 0;
    while i < |SizeFiles|
      invariant i <= |SizeFiles|
      invariant sources == NamedSources(present, i)
    {
      var (size, filename) := SizeFiles[i];
      if filename in present {
        sources := sources[size := filename];
      }
      i := i + 1;
    }
    if sources == map[] && pngs != [] {
      var largest := Largest(pngs);
      var width, height := largest.width, largest.height;
      if width == height {
        sources := sources[width := largest.name];
      } else {
        var size := Max(width, height);
        sources := sources[size := largest.name];
      }
    }
  }

  /** A named file is loaded under its own size exactly when it exists, and nothing else is. */
  lemma {:induction false} NamedSourcesSpec(present: set<string>, n: nat)
    requires n <= |SizeFiles|
    ensures forall k :: k in NamedSources(present, n) <==>
      exists i :: 0 <= i < n && SizeFiles[i].0 == k && SizeFiles[i].1 in present
    ensures forall i :: 0 <= i < n && SizeFiles[i].1 in present ==>
      NamedSources(present, n)[SizeFiles[i].0] == SizeFiles[i].1
  {
    if n > 0 {
      NamedSourcesSpec(present, n - 1);
    }
  }

  /**
   * The sources `load_sources` finds: the named files that exist, or else the largest PNG keyed
   * by its larger side, or else nothing.
   */
  lemma LoadSpec(present: set<string>, pngs: seq<PngFile>)
    ensures var s := SourcesOf(present, pngs);
      && ((exists i :: 0 <= i < |SizeFiles| && SizeFiles[i].1 in present) ==>
            forall k :: k in s <==> exists i :: 0 <= i < |SizeFiles| && SizeFiles[i].0 == k && SizeFiles[i].1 in present)
      && ((forall i :: 0 <= i < |SizeFiles| ==> SizeFiles[i].1 !in present) && pngs != [] ==>
            s.Keys == {Max(Largest(pngs).width, Largest(pngs).height)})
      && (s == map[] <==> (forall i :: 0 <= i < |SizeFiles| ==> SizeFiles[i].1 !in present) && pngs == [])
  {
    NamedSourcesSpec(present, |SizeFiles|);
    var named := NamedSources(present, |SizeFiles|);
    if exists i :: 0 <= i < |SizeFiles| && SizeFiles[i].1 in present {
      var i :| 0 <= i < |SizeFiles| && SizeFiles[i].1 in present;
      assert SizeFiles[i].0 in named;
    }
  }

  // ---------------------------------------------------------------------------------------
  // main
  // ---------------------------------------------------------------------------------------

  /** `iconset_files`: each iconset member with the pixel size it is drawn at. */
  const IconsetFiles: seq<(nat, string)> := [
    (16, "icon_16x16.png"),
    (32, "icon_16x16@2x.png"),
    (32, "icon_32x32.png"),
    (64, "icon_32x32@2x.png"),
    (128, "icon_128x128.png"),
    (256, "icon_128x128@2x.png"),
    (256, "icon_256x256.png"),
    (512, "icon_256x256@2x.png"),
    (512, "icon_512x512.png"),
    (1024, "icon_512x512@2x.png")
  ]

  /** One file the build writes: its name, its size, and the source file it is drawn from. */
  datatype Output = Output(name: string, size: nat, source: string)

  function Draw(name: string, size: nat, sources: map<nat, string>): Output
    requires sources != map[]
  {
    match GetBestSource(size, sources)
    case Ok(src) => Output(name, size, src)
  }

  /**
   * The files `build_ico` and `build_icns` write, in order: the ICO is written from the 256 image,
   * then two standalone PNGs, then the iconset.
   */
  function Outputs(sources: map<nat, string>): (r: seq<Output>)
    requires sources != map[]
    ensures |r| == 3 + |IconsetFiles|
  {
    [Draw("docprep.ico", IcoSizes[0], sources),
     Draw("docprep_256.png", 256, sources),
     Draw("docprep_128.png", 128, sources)]
    + seq(|IconsetFiles|, i requires 0 <= i < |IconsetFiles| =>
        Draw("docprep.iconset/" + IconsetFiles[i].1, IconsetFiles[i].0, sources))
  }

  /**
   * `main` once the directory has been looked at: it refuses to build (exit status 1) when the
   * source directory is missing or holds no usable logo, and otherwise writes `Outputs`.
   */
  function Build(sourceDirExists: bool, present: set<string>, pngs: seq<PngFile>): (r: Result<seq<Output>>)
    ensures r.Ok? <==> sourceDirExists && SourcesOf(present, pngs) != map[]
    ensures r.Ok? ==> r.value == Outputs(SourcesOf(present, pngs))
  {
    if !sourceDirExists then Err("Source directory not found")
    else
      var sources := SourcesOf(present, pngs);
      if sources == map[] then Err("No source images found")
      else Ok(Outputs(sources))
  }

  /** Each output is drawn from the source `get_best_source` picks for its size. */
  lemma DrawnFromBest(sources: map<nat, string>, i: nat)
    requires sources != map[] && i < |Outputs(sources)|
    ensures var out := Outputs(sources)[i];
      BestSize(out.size, sources).Some? && out.source == sources[BestSize(out.size, sources).value]
  {
    var heads := [Draw("docprep.ico", IcoSizes[0], sources),
      Draw("docprep_256.png", 256, sources),
      Draw("docprep_128.png", 128, sources)];
    var iconset := seq(|IconsetFiles|, i requires 0 <= i < |IconsetFiles| =>
        Draw("docprep.iconset/" + IconsetFiles[i].1, IconsetFiles[i].0, sources));
    assert Outputs(sources) == heads + iconset;
    var out := Outputs(sources)[i];
    if i < 3 {
      assert out == heads[i];
    } else {
      assert out == iconset[i - 3];
    }
    assert exists name, size :: out == Draw(name, size, sources);
  }

  /** Every file the build writes is drawn from a loaded logo at least its size, when there is one. */
  lemma BuildNeverUpscalesNeedlessly(sourceDirExists: bool, present: set<string>, pngs: seq<PngFile>, i: nat, k: nat)
    requires Build(sourceDirExists, present, pngs).Ok?
    requires i < |Build(sourceDirExists, present, pngs).value|
    requires var sources := SourcesOf(present, pngs);
      k in sources && k >= Build(sourceDirExists, present, pngs).value[i].size
    ensures var sources := SourcesOf(present, pngs);
      var out := Build(sourceDirExists, present, pngs).value[i];
      exists b :: b in sources && sources[b] == out.source && out.size <= b <= k
  {
    var sources := SourcesOf(present, pngs);
    var out := Outputs(sources)[i];
    DrawnFromBest(sources, i);
    BestIsSmallestLargeEnough(out.size, sources);
  }
}
