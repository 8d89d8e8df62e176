/**
 * ExcelExtractor: writes every non-empty sheet of a workbook to a CSV file in a directory of
 * its own and, for .xlsx workbooks, counts the charts and writes out the embedded images.
 *
 * The pandas workbook and the openpyxl workbook are given as values; every call into the file
 * system or a library that can fail is a field of ExcelEnv or of a sheet saying how it turns out.
 */
module ExcelExtraction {
  import opened Wrappers
  import opened Strings
  import opened Paths
  import opened Base

  /** `can_extract`: `.xlsx` with openpyxl importable, or `.xls` with xlrd importable. */
  predicate CanExtract(xlsxAvailable: bool, xlsAvailable: bool, filepath: Path) {
    var ext := Lower(Suffix(Name(filepath)));
    (ext == ".xlsx" && xlsxAvailable) || (ext == ".xls" && xlsAvailable)
  }

  /** The shape of the DataFrame `read_excel` returns for a sheet. */
  datatype Frame = Frame(rows: nat, cols: nat)

  /**
   * A sheet as pandas sees it: its name, what reading it gives (or the exception it raises),
   * and the exception, if any, writing its CSV file raises.
   */
  datatype Sheet = Sheet(name: string, content: Result<Frame>, csvWriteError: Option<string>)

  /**
   * An image embedded in a sheet as openpyxl sees it: whether it has a `_data` attribute, and
   * whether reading that data and writing it out both succeed.
   */
  datatype EmbeddedImage = EmbeddedImage(hasData: bool, saved: bool)

  /** A sheet as openpyxl sees it: its name, its number of charts, its images. */
  datatype WorkbookSheet = WorkbookSheet(name: string, charts: nat, images: seq<EmbeddedImage>)

  /**
   * How the outside world answers: whether the output directory and the workbook's own
   * directory can be created, what `pd.ExcelFile` gives, and what `openpyxl.load_workbook`
   * gives.
   */
  datatype ExcelEnv = ExcelEnv(
    outputDirOk: bool,
    subdirOk: bool,
    file: Result<seq<Sheet>>,
    workbook: Result<seq<WorkbookSheet>>)

  const NoXlsx: string := "openpyxl not installed - cannot process .xlsx files"
  const NoXls: string := "xlrd not installed - cannot process .xls files"
  const NoData: string := "No data extracted from Excel file"
  const ChartsKey: string := "charts_found"

  function UnsupportedMessage(ext: string): string {
    "Unsupported file extension: " + ext
  }

  function SheetError(name: string, e: string): string {
    "Error extracting sheet '" + name + "': " + e
  }

  function EmptySheet(name: string): string {
    "Sheet '" + name + "' is empty"
  }

  function ChartsWarning(n: nat): string {
    "Found " + NatToString(n) + " charts (chart rendering requires additional tools)"
  }

  // ---------------------------------------------------------------------------------------
  // _extract_sheet

  /** `df.empty or df.shape[0] == 0` */
  predicate IsEmpty(f: Frame) {
    f.rows == 0 || f.cols == 0
  }

  /** The sanitized form of each name, as `sanitize_filename` gives it. */
  function SafeNames(names: seq<string>): (r: seq<string>)
    ensures |r| == |names|
  {
    seq(|names|, i requires 0 <= i < |names| => Sanitize(names[i], DefaultMaxLength))
  }

  /** The CSV file of a sheet whose sanitized name is `safeName`, in the workbook's directory. */
  function CsvPath(subdir: Path, safeName: string): Path {
    Child(subdir, safeName + ".csv")
  }

  /**
   * One sheet of the loop in `extract`, `_extract_sheet` and its handler together;
   * `safeName` is the sanitized sheet name.
   */
  function SheetStep(rec: ResultRecord, subdir: Path, sheet: Sheet, safeName: string): ResultRecord {
    match sheet.content
    case Err(e) => rec.WithWarning(SheetError(sheet.name, e))
    case Ok(f) =>
      if IsEmpty(f) then rec.WithWarning(EmptySheet(sheet.name))
      else match sheet.csvWriteError
        case Some(e) => rec.WithWarning(SheetError(sheet.name, e))
        case None => rec.WithFile(CsvPath(subdir, safeName))
  }

  /** The sheet loop; `safe` holds the sanitized sheet names. */
  function SheetsFold(rec: ResultRecord, subdir: Path, sheets: seq<Sheet>, safe: seq<string>): ResultRecord
    requires |safe| == |sheets|
  {
    if sheets == [] then rec
    else SheetStep(SheetsFold(rec, subdir, sheets[..|sheets| - 1], safe[..|sheets| - 1]), subdir, sheets[|sheets| - 1], safe[|sheets| - 1])
  }

  // ---------------------------------------------------------------------------------------
  // _extract_charts

  /** `image_{n}_{sheet}.png`, where `sheet` is the sanitized sheet name. */
  function ExcelImageName(n: nat, safeSheet: string): string {
    "image_" + NatToString(n) + "_" + safeSheet + ".png"
  }

  /** The result record and the chart and image counters while the sheets are visited. */
  datatype ChartRun = ChartRun(rec: ResultRecord, charts: nat, images: nat)

  /** `k` charts of one sheet: each bumps the counter and records it as `charts_found`. */
  function ChartsFold(st: ChartRun, k: nat): ChartRun {
    if k == 0 then st
    else
      var s := ChartsFold(st, k - 1);
      s.(rec := s.rec.WithMeta(ChartsKey, Count(s.charts + 1)), charts := s.charts + 1)
  }

  /** One embedded image: always counted, written out under its number when it can be. */
  function ImageStep(st: ChartRun, dir: Path, safeSheet: string, img: EmbeddedImage): ChartRun {
    var n := st.images + 1;
    var path := Child(dir, ExcelImageName(n, safeSheet));
    st.(rec := if img.hasData && img.saved then st.rec.WithFile(path) else st.rec, images := n)
  }

  function ImagesFold(st: ChartRun, dir: Path, safeSheet: string, imgs: seq<EmbeddedImage>): ChartRun {
    if imgs == [] then st
    else ImageStep(ImagesFold(st, dir, safeSheet, imgs[..|imgs| - 1]), dir, safeSheet, imgs[|imgs| - 1])
  }

  /** One sheet of `_extract_charts`: its charts, then its images. */
  function WorkbookSheetStep(st: ChartRun, dir: Path, sheet: WorkbookSheet, safeName: string): ChartRun {
    ImagesFold(ChartsFold(st, sheet.charts), dir, safeName, sheet.images)
  }

  /** The sheet loop of `_extract_charts`; `safe` holds the sanitized sheet names. */
  function WorkbookFold(st: ChartRun, dir: Path, sheets: seq<WorkbookSheet>, safe: seq<string>): ChartRun
    requires |safe| == |sheets|
  {
    if sheets == [] then st
    else WorkbookSheetStep(WorkbookFold(st, dir, sheets[..|sheets| - 1], safe[..|sheets| - 1]), dir, sheets[|sheets| - 1], safe[|sheets| - 1])
  }

  lemma WorkbookFoldNext(st: ChartRun, dir: Path, sheets: seq<WorkbookSheet>, safe: seq<string>, s: nat)
    requires |safe| == |sheets| && s < |sheets|
    ensures WorkbookFold(st, dir, sheets[..s + 1], safe[..s + 1])
         == WorkbookSheetStep(WorkbookFold(st, dir, sheets[..s], safe[..s]), dir, sheets[s], safe[s])
  {
    assert sheets[..s + 1][..s] == sheets[..s] && safe[..s + 1][..s] == safe[..s];
  }

  /** `wb.sheetnames` */
  function WorkbookNames(sheets: seq<WorkbookSheet>): (r: seq<string>)
    ensures |r| == |sheets| && forall i :: 0 <= i < |sheets| ==> r[i] == sheets[i].name
  {
    if sheets == [] then [] else WorkbookNames(sheets[..|sheets| - 1]) + [sheets[|sheets| - 1].name]
  }

  /** The closing lines of `_extract_charts`: chart count and warning, then image count. */
  function ChartsSummary(st: ChartRun): ResultRecord {
    var r := if st.charts > 0 then st.rec.WithMeta(ChartsKey, Count(st.charts)).WithWarning(ChartsWarning(st.charts)) else st.rec;
    if st.images > 0 then r.WithMeta("images_extracted", Count(st.images)) else r
  }

  /** What `_extract_charts` and its handler in `extract` record. */
  function ChartsOf(rec: ResultRecord, dir: Path, workbook: Result<seq<WorkbookSheet>>): ResultRecord {
    match workbook
    case Err(e) => rec.WithWarning("Error extracting charts: " + e)
    case Ok(sheets) => ChartsSummary(WorkbookFold(ChartRun(rec, 0, 0), dir, sheets, SafeNames(WorkbookNames(sheets))))
  }

  // ---------------------------------------------------------------------------------------
  // extract

  /** `excel_file.sheet_names` */
  function SheetNames(sheets: seq<Sheet>): (r: seq<string>)
    ensures |r| == |sheets| && forall i :: 0 <= i < |sheets| ==> r[i] == sheets[i].name
  {
    if sheets == [] then [] else SheetNames(sheets[..|sheets| - 1]) + [sheets[|sheets| - 1].name]
  }

  /** The record once the workbook is read: the sheet count and names. */
  function OpenedRecord(filepath: Path, sheets: seq<Sheet>): ResultRecord {
    NewRecord(filepath).WithMeta("sheet_count", Count(|sheets|)).WithMeta("sheet_names", Names(SheetNames(sheets)))
  }

  /** What `extract` does once the workbook is read; `subdir` is the workbook's own directory. */
  function ExtractOpened(isXlsx: bool, filepath: Path, subdir: Path, sheets: seq<Sheet>, workbook: Result<seq<WorkbookSheet>>): ResultRecord {
    var r := SheetsFold(OpenedRecord(filepath, sheets), subdir, sheets, SafeNames(SheetNames(sheets)));
    var r := if isXlsx then ChartsOf(r, subdir, workbook) else r;
    Conclude(r, 0, NoData)
  }

  /** `extract(filepath, output_dir)`, where `safe` is the sanitized name of the file. */
  function ExcelExtract(xlsxAvailable: bool, xlsAvailable: bool, filepath: Path, outputDir: Path, safe: string, env: ExcelEnv): ResultRecord {
    var rec := NewRecord(filepath);
    var ext := Lower(Suffix(Name(filepath)));
    if !env.outputDirOk then rec.WithError(OutputDirError(outputDir))
    else if ext == ".xlsx" && !xlsxAvailable then rec.WithError(NoXlsx)
    else if ext == ".xls" && !xlsAvailable then rec.WithError(NoXls)
    else if ext != ".xlsx" && ext != ".xls" then rec.WithError(UnsupportedMessage(ext))
    else if !env.subdirOk then rec.WithError(OutputDirError(Child(outputDir, safe)))
    else match env.file
      case Err(e) => rec.WithError(FailedMessage(filepath, e))
      case Ok(sheets) => ExtractOpened(ext == ".xlsx", filepath, Child(outputDir, safe), sheets, env.workbook)
  }

  // ---------------------------------------------------------------------------------------
  // Properties of the sheets

  /** Sheets that can be read, are not empty, and whose CSV file can be written. */
  function Exported(sheets: seq<Sheet>): nat {
    if sheets == [] then 0
    else
      var s := sheets[|sheets| - 1];
      Exported(sheets[..|sheets| - 1]) + (if Exports(s) then 1 else 0)
  }

  /**
   * The sheet loop adds no error and keeps `success` and the metadata; it records one CSV
   * file per exported sheet, after the files already there, and one warning per other sheet.
   */
  lemma {:induction false} SheetsFoldSpec(rec: ResultRecord, subdir: Path, sheets: seq<Sheet>, safe: seq<string>)
    requires |safe| == |sheets|
    ensures var f := SheetsFold(rec, subdir, sheets, safe);
      && f.sourceFile == rec.sourceFile && f.success == rec.success && f.errors == rec.errors && f.metadata == rec.metadata
      && |f.extractedFiles| == |rec.extractedFiles| + Exported(sheets)
      && f.extractedFiles[..|rec.extractedFiles|] == rec.extractedFiles
      && |f.warnings| == |rec.warnings| + |sheets| - Exported(sheets)
      && (forall j :: |rec.extractedFiles| <= j < |f.extractedFiles| ==>
            exists i :: 0 <= i < |sheets| && f.extractedFiles[j] == CsvPath(subdir, safe[i]))
  {
    if sheets != [] {
      var n := |sheets| - 1;
      SheetsFoldSpec(rec, subdir, sheets[..n], safe[..n]);
      var g := SheetsFold(rec, subdir, sheets[..n], safe[..n]);
      var f := SheetsFold(rec, subdir, sheets, safe);
      assert f == SheetStep(g, subdir, sheets[n], safe[n]);
      SheetStepSpec(g, subdir, sheets[n], safe[n]);
      assert Exported(sheets) == Exported(sheets[..n]) + (if Exports(sheets[n]) then 1 else 0);
      var k := |rec.extractedFiles|;
      forall j | k <= j < |f.extractedFiles|
        ensures exists i :: 0 <= i < |sheets| && f.extractedFiles[j] == CsvPath(subdir, safe[i])
      {
        if j < |g.extractedFiles| {
          var i :| 0 <= i < n && g.extractedFiles[j] == CsvPath(subdir, safe[..n][i]);
          assert f.extractedFiles[j] == g.extractedFiles[j];
        } else {
          assert f.extractedFiles[j] == CsvPath(subdir, safe[n]);
        }
      }
      PrefixOfAppend(g.extractedFiles, f.extractedFiles, k);
    }
  }

  lemma SheetsFoldNext(rec: ResultRecord, subdir: Path, sheets: seq<Sheet>, safe: seq<string>, i: nat)
    requires |safe| == |sheets| && i < |sheets|
    ensures SheetsFold(rec, subdir, sheets[..i + 1], safe[..i + 1])
         == SheetStep(SheetsFold(rec, subdir, sheets[..i], safe[..i]), subdir, sheets[i], safe[i])
  {
    assert sheets[..i + 1][..i] == sheets[..i] && safe[..i + 1][..i] == safe[..i];
  }

  /** A sheet whose CSV file gets written: readable, not empty, and written without error. */
  predicate Exports(s: Sheet) {
    s.content.Ok? && !IsEmpty(s.content.value) && s.csvWriteError.None?
  }

  /** One sheet adds its CSV file when it is exported and one warning otherwise. */
  lemma SheetStepSpec(g: ResultRecord, subdir: Path, sheet: Sheet, safeName: string)
    ensures var f := SheetStep(g, subdir, sheet, safeName);
      && f.sourceFile == g.sourceFile && f.success == g.success && f.errors == g.errors && f.metadata == g.metadata
      && f.extractedFiles == g.extractedFiles + (if Exports(sheet) then [CsvPath(subdir, safeName)] else [])
      && |f.warnings| == |g.warnings| + (if Exports(sheet) then 0 else 1)
  {
  }

  /** Extending a sequence by nothing or by more keeps any prefix it had. */
  lemma PrefixOfAppend<T>(g: seq<T>, f: seq<T>, k: nat)
    requires k <= |g| <= |f| && f[..|g|] == g
    ensures f[..k] == g[..k]
  {
  }

  /** When every sheet is exported, the k-th new file is the CSV file of the k-th sheet. */
  lemma {:induction false} ExportedFilesInOrder(rec: ResultRecord, subdir: Path, sheets: seq<Sheet>, safe: seq<string>)
    requires |safe| == |sheets|
    requires forall k :: 0 <= k < |sheets| ==> sheets[k].content.Ok? && !IsEmpty(sheets[k].content.value) && sheets[k].csvWriteError.None?
    ensures var f := SheetsFold(rec, subdir, sheets, safe);
      && |f.extractedFiles| == |rec.extractedFiles| + |sheets|
      && forall k :: 0 <= k < |sheets| ==> f.extractedFiles[|rec.extractedFiles| + k] == CsvPath(subdir, safe[k])
  {
    if sheets != [] {
      var n := |sheets| - 1;
      ExportedFilesInOrder(rec, subdir, sheets[..n], safe[..n]);
      var g := SheetsFold(rec, subdir, sheets[..n], safe[..n]);
      var f := SheetsFold(rec, subdir, sheets, safe);
      assert f.extractedFiles == g.extractedFiles + [CsvPath(subdir, safe[n])];
      forall k | 0 <= k < n
        ensures f.extractedFiles[|rec.extractedFiles| + k] == CsvPath(subdir, safe[k])
      {
        assert safe[..n][k] == safe[k];
      }
    }
  }

  /**
   * Two exported sheets whose names sanitize alike share one CSV path: the later file
   * replaces the earlier one on disk, while the result lists the path twice.
   */
  lemma SameSanitizedNameSharesCsv(rec: ResultRecord, subdir: Path, sheets: seq<Sheet>, i: nat, j: nat)
    requires i < j < |sheets|
    requires forall k :: 0 <= k < |sheets| ==> sheets[k].content.Ok? && !IsEmpty(sheets[k].content.value) && sheets[k].csvWriteError.None?
    requires Sanitize(sheets[i].name, DefaultMaxLength) == Sanitize(sheets[j].name, DefaultMaxLength)
    ensures var f := SheetsFold(rec, subdir, sheets, SafeNames(SheetNames(sheets)));
      && |f.extractedFiles| == |rec.extractedFiles| + |sheets|
      && f.extractedFiles[|rec.extractedFiles| + i] == f.extractedFiles[|rec.extractedFiles| + j]
  {
    var safe := SafeNames(SheetNames(sheets));
    ExportedFilesInOrder(rec, subdir, sheets, safe);
    assert SheetNames(sheets)[i] == sheets[i].name && SheetNames(sheets)[j] == sheets[j].name;
    assert safe[i] == safe[j];
  }

  // ---------------------------------------------------------------------------------------
  // Properties of the charts and images

  /** Charts over the workbook's sheets. */
  function TotalCharts(sheets: seq<WorkbookSheet>): nat {
    if sheets == [] then 0 else TotalCharts(sheets[..|sheets| - 1]) + sheets[|sheets| - 1].charts
  }

  /** Embedded images over the workbook's sheets. */
  function TotalImages(sheets: seq<WorkbookSheet>): nat {
    if sheets == [] then 0 else TotalImages(sheets[..|sheets| - 1]) + |sheets[|sheets| - 1].images|
  }

  /** Embedded images that are written out, on one sheet. */
  function SavedOn(imgs: seq<EmbeddedImage>): nat {
    if imgs == [] then 0
    else SavedOn(imgs[..|imgs| - 1]) + (if imgs[|imgs| - 1].hasData && imgs[|imgs| - 1].saved then 1 else 0)
  }

  /** Embedded images that are written out, over the workbook. */
  function TotalSaved(sheets: seq<WorkbookSheet>): nat {
    if sheets == [] then 0 else TotalSaved(sheets[..|sheets| - 1]) + SavedOn(sheets[|sheets| - 1].images)
  }

  /** The image file numbered `n` in (lo, hi], for some sheet. */
  ghost predicate NumberedImage(f: Path, dir: Path, lo: nat, hi: nat) {
    exists n: nat, s: string :: lo < n <= hi && f == Child(dir, ExcelImageName(n, s))
  }

  /** Every file from position `k` on is an image file numbered in (lo, hi]. */
  ghost predicate AllNumbered(files: seq<Path>, k: nat, dir: Path, lo: nat, hi: nat) {
    forall j :: k <= j < |files| ==> NumberedImage(files[j], dir, lo, hi)
  }

  /** No two files from position `k` on are the same. */
  predicate DistinctFrom(files: seq<Path>, k: nat) {
    forall a, b :: k <= a < b < |files| ==> files[a] != files[b]
  }

  /** The number in an image name can be read back. */
  lemma ExcelImageNameInjective(n1: nat, s1: string, n2: nat, s2: string)
    requires ExcelImageName(n1, s1) == ExcelImageName(n2, s2)
    ensures n1 == n2
  {
    var d1, d2 := NatToString(n1), NatToString(n2);
    assert ExcelImageName(n1, s1) == "image_" + (d1 + ("_" + s1 + ".png"));
    assert ExcelImageName(n2, s2) == "image_" + (d2 + ("_" + s2 + ".png"));
    CancelPrefix("image_", d1 + ("_" + s1 + ".png"), d2 + ("_" + s2 + ".png"));
    DigitsThenStop(d1, "_" + s1 + ".png", d2, "_" + s2 + ".png");
    DigitsValueOfNatToString(n1);
    DigitsValueOfNatToString(n2);
  }

  /** Image files numbered in disjoint ranges are different files. */
  lemma NumberedApart(f1: Path, f2: Path, dir: Path, lo: nat, mid: nat, hi: nat)
    requires NumberedImage(f1, dir, lo, mid) && NumberedImage(f2, dir, mid, hi)
    ensures f1 != f2
  {
    var n1: nat, s1 :| lo < n1 <= mid && f1 == Child(dir, ExcelImageName(n1, s1));
    var n2: nat, s2 :| mid < n2 <= hi && f2 == Child(dir, ExcelImageName(n2, s2));
    if f1 == f2 {
      assert ExcelImageName(n1, s1) != "" && ExcelImageName(n2, s2) != "";
      ChildInjective(dir, ExcelImageName(n1, s1), ExcelImageName(n2, s2));
      ExcelImageNameInjective(n1, s1, n2, s2);
    }
  }

  /** The part of the record the chart and image loops keep. */
  predicate Kept(a: ResultRecord, b: ResultRecord) {
    a.sourceFile == b.sourceFile && a.success == b.success && a.errors == b.errors && a.warnings == b.warnings
    && |a.extractedFiles| <= |b.extractedFiles| && b.extractedFiles[..|a.extractedFiles|] == a.extractedFiles
  }

  lemma KeptTransitive(a: ResultRecord, b: ResultRecord, c: ResultRecord)
    requires Kept(a, b) && Kept(b, c)
    ensures Kept(a, c)
  {
    assert c.extractedFiles[..|a.extractedFiles|] == c.extractedFiles[..|b.extractedFiles|][..|a.extractedFiles|];
  }

  /** The charts of one sheet: the counter goes up by their number and no file is added. */
  lemma {:induction false} ChartsFoldSpec(st: ChartRun, k: nat)
    ensures var f := ChartsFold(st, k);
      && f.charts == st.charts + k && f.images == st.images
      && f.rec.extractedFiles == st.rec.extractedFiles && Kept(st.rec, f.rec)
  {
    if k > 0 {
      ChartsFoldSpec(st, k - 1);
    }
  }

  /**
   * The images of one sheet: every image is counted, whether it is written or not, and only
   * the written ones add a file.
   */
  lemma {:induction false} ImagesFoldCounts(st: ChartRun, dir: Path, safeSheet: string, imgs: seq<EmbeddedImage>)
    ensures var f := ImagesFold(st, dir, safeSheet, imgs);
      && f.images == st.images + |imgs| && f.charts == st.charts
      && Kept(st.rec, f.rec) && f.rec.metadata == st.rec.metadata
      && |f.rec.extractedFiles| == |st.rec.extractedFiles| + SavedOn(imgs)
  {
    if imgs != [] {
      var init := imgs[..|imgs| - 1];
      ImagesFoldCounts(st, dir, safeSheet, init);
      var g := ImagesFold(st, dir, safeSheet, init);
      var f := ImagesFold(st, dir, safeSheet, imgs);
      if f.rec != g.rec {
        KeptTransitive(st.rec, g.rec, f.rec);
      }
    }
  }

  /** The images written for one sheet are numbered past the counter and pairwise distinct. */
  lemma {:induction false} ImagesFoldNames(st: ChartRun, dir: Path, safeSheet: string, imgs: seq<EmbeddedImage>)
    ensures var f := ImagesFold(st, dir, safeSheet, imgs);
      var k := |st.rec.extractedFiles|;
      && AllNumbered(f.rec.extractedFiles, k, dir, st.images, f.images)
      && DistinctFrom(f.rec.extractedFiles, k)
  {
    if imgs != [] {
      var init := imgs[..|imgs| - 1];
      ImagesFoldNames(st, dir, safeSheet, init);
      ImagesFoldCounts(st, dir, safeSheet, init);
      var g := ImagesFold(st, dir, safeSheet, init);
      var f := ImagesFold(st, dir, safeSheet, imgs);
      var k := |st.rec.extractedFiles|;
      forall j | k <= j < |g.rec.extractedFiles|
        ensures NumberedImage(g.rec.extractedFiles[j], dir, st.images, f.images)
      {
        var n: nat, s :| st.images < n <= g.images && g.rec.extractedFiles[j] == Child(dir, ExcelImageName(n, s));
      }
      if f.rec != g.rec {
        var last := Child(dir, ExcelImageName(f.images, safeSheet));
        assert f.rec.extractedFiles == g.rec.extractedFiles + [last];
        assert NumberedImage(last, dir, g.images, f.images);
        forall j | k <= j < |g.rec.extractedFiles|
          ensures g.rec.extractedFiles[j] != last
        {
          NumberedApart(g.rec.extractedFiles[j], last, dir, st.images, g.images, f.images);
        }
      }
    }
  }

  /**
   * The whole workbook: the counters are its charts and its images, and only the written
   * images add files.
   */
  lemma {:induction false} WorkbookFoldCounts(st: ChartRun, dir: Path, sheets: seq<WorkbookSheet>, safe: seq<string>)
    requires |safe| == |sheets|
    ensures var f := WorkbookFold(st, dir, sheets, safe);
      && f.charts == st.charts + TotalCharts(sheets) && f.images == st.images + TotalImages(sheets)
      && Kept(st.rec, f.rec)
      && |f.rec.extractedFiles| == |st.rec.extractedFiles| + TotalSaved(sheets)
  {
    if sheets != [] {
      var n := |sheets| - 1;
      WorkbookFoldCounts(st, dir, sheets[..n], safe[..n]);
      var g := WorkbookFold(st, dir, sheets[..n], safe[..n]);
      ChartsFoldSpec(g, sheets[n].charts);
      var c := ChartsFold(g, sheets[n].charts);
      ImagesFoldCounts(c, dir, safe[n], sheets[n].images);
      KeptTransitive(g.rec, c.rec, WorkbookFold(st, dir, sheets, safe).rec);
      KeptTransitive(st.rec, g.rec, WorkbookFold(st, dir, sheets, safe).rec);
    }
  }

  /** Written images are recorded under distinct numbered names across the whole workbook. */
  lemma {:induction false} WorkbookFoldNames(st: ChartRun, dir: Path, sheets: seq<WorkbookSheet>, safe: seq<string>)
    requires |safe| == |sheets|
    ensures var f := WorkbookFold(st, dir, sheets, safe);
      var k := |st.rec.extractedFiles|;
      && AllNumbered(f.rec.extractedFiles, k, dir, st.images, f.images)
      && DistinctFrom(f.rec.extractedFiles, k)
  {
    if sheets != [] {
      var n := |sheets| - 1;
      WorkbookFoldNames(st, dir, sheets[..n], safe[..n]);
      WorkbookFoldCounts(st, dir, sheets[..n], safe[..n]);
      var g := WorkbookFold(st, dir, sheets[..n], safe[..n]);
      ChartsFoldSpec(g, sheets[n].charts);
      var c := ChartsFold(g, sheets[n].charts);
      ImagesFoldCounts(c, dir, safe[n], sheets[n].images);
      ImagesFoldNames(c, dir, safe[n], sheets[n].images);
      var f := WorkbookFold(st, dir, sheets, safe);
      assert f == ImagesFold(c, dir, safe[n], sheets[n].images);
      var k := |st.rec.extractedFiles|;
      var m := |g.rec.extractedFiles|;
      var files := f.rec.extractedFiles;
      assert files[..m] == g.rec.extractedFiles;
      forall j | k <= j < m
        ensures NumberedImage(files[j], dir, st.images, g.images)
      {
        assert files[j] == g.rec.extractedFiles[j];
      }
      forall j | k <= j < |files|
        ensures NumberedImage(files[j], dir, st.images, f.images)
      {
        if j < m {
          NumberedWiden(files[j], dir, st.images, g.images, st.images, f.images);
        } else {
          assert NumberedImage(files[j], dir, c.images, f.images);
          NumberedWiden(files[j], dir, c.images, f.images, st.images, f.images);
        }
      }
      forall a, b | k <= a < b < |files|
        ensures files[a] != files[b]
      {
        if b < m {
          assert files[a] == g.rec.extractedFiles[a] && files[b] == g.rec.extractedFiles[b];
        } else if a < m {
          NumberedApart(files[a], files[b], dir, st.images, g.images, f.images);
        }
      }
    }
  }

  /** The chart and image loops touch no metadata key but `charts_found`. */
  lemma {:induction false} WorkbookMetadata(st: ChartRun, dir: Path, sheets: seq<WorkbookSheet>, safe: seq<string>, other: string)
    requires |safe| == |sheets| && other != ChartsKey
    ensures Lookup(WorkbookFold(st, dir, sheets, safe).rec.metadata, other) == Lookup(st.rec.metadata, other)
  {
    if sheets != [] {
      var n := |sheets| - 1;
      WorkbookMetadata(st, dir, sheets[..n], safe[..n], other);
      var g := WorkbookFold(st, dir, sheets[..n], safe[..n]);
      ChartsMetadata(g, sheets[n].charts, other);
      ImagesFoldCounts(ChartsFold(g, sheets[n].charts), dir, safe[n], sheets[n].images);
    }
  }

  lemma {:induction false} ChartsMetadata(st: ChartRun, k: nat, other: string)
    requires other != ChartsKey
    ensures Lookup(ChartsFold(st, k).rec.metadata, other) == Lookup(st.rec.metadata, other)
  {
    if k > 0 {
      ChartsMetadata(st, k - 1, other);
      var s := ChartsFold(st, k - 1);
      SetKeyLookup(s.rec.metadata, ChartsKey, Count(s.charts + 1), other);
    }
  }

  /**
   * `images_extracted` counts every embedded image of the workbook, also those that have no
   * data or could not be written, so it can exceed the image files recorded.
   */
  lemma ImagesCountedNotSaved(rec: ResultRecord, dir: Path, sheets: seq<WorkbookSheet>)
    requires Lookup(rec.metadata, "images_extracted").None?
    ensures var r := ChartsOf(rec, dir, Ok(sheets));
      && Lookup(r.metadata, "images_extracted") == (if TotalImages(sheets) > 0 then Some(Count(TotalImages(sheets))) else None)
      && |r.extractedFiles| == |rec.extractedFiles| + TotalSaved(sheets)
  {
    var safe := SafeNames(WorkbookNames(sheets));
    var st := WorkbookFold(ChartRun(rec, 0, 0), dir, sheets, safe);
    WorkbookFoldCounts(ChartRun(rec, 0, 0), dir, sheets, safe);
    WorkbookMetadata(ChartRun(rec, 0, 0), dir, sheets, safe, "images_extracted");
    var r := if st.charts > 0 then st.rec.WithMeta(ChartsKey, Count(st.charts)).WithWarning(ChartsWarning(st.charts)) else st.rec;
    SetKeyLookup(st.rec.metadata, ChartsKey, Count(st.charts), "images_extracted");
    SetKeyLookup(r.metadata, "images_extracted", Count(st.images), "images_extracted");
  }

  /** With at least one chart, `charts_found` is the workbook's chart count and a warning says so. */
  lemma ChartsFound(rec: ResultRecord, dir: Path, sheets: seq<WorkbookSheet>)
    requires TotalCharts(sheets) > 0
    ensures var r := ChartsOf(rec, dir, Ok(sheets));
      && Lookup(r.metadata, ChartsKey) == Some(Count(TotalCharts(sheets)))
      && ChartsWarning(TotalCharts(sheets)) in r.warnings
  {
    var safe := SafeNames(WorkbookNames(sheets));
    var st := WorkbookFold(ChartRun(rec, 0, 0), dir, sheets, safe);
    WorkbookFoldCounts(ChartRun(rec, 0, 0), dir, sheets, safe);
    var r := st.rec.WithMeta(ChartsKey, Count(st.charts)).WithWarning(ChartsWarning(st.charts));
    SetKeyLookup(st.rec.metadata, ChartsKey, Count(st.charts), ChartsKey);
    assert r.warnings[|r.warnings| - 1] == ChartsWarning(st.charts);
    if st.images > 0 {
      SetKeyLookup(r.metadata, "images_extracted", Count(st.images), ChartsKey);
    }
  }

  /**
   * The images the chart loop writes land in the workbook's directory under distinct names,
   * none of which is the CSV file of a sheet.
   */
  lemma ImagesDistinct(rec: ResultRecord, dir: Path, sheets: seq<WorkbookSheet>, safe: seq<string>, safeName: string)
    requires |safe| == |sheets|
    ensures var r := WorkbookFold(ChartRun(rec, 0, 0), dir, sheets, safe).rec;
      && DistinctFrom(r.extractedFiles, |rec.extractedFiles|)
      && forall j :: |rec.extractedFiles| <= j < |r.extractedFiles| ==> r.extractedFiles[j] != CsvPath(dir, safeName)
  {
    var r := WorkbookFold(ChartRun(rec, 0, 0), dir, sheets, safe);
    WorkbookFoldNames(ChartRun(rec, 0, 0), dir, sheets, safe);
    forall j | |rec.extractedFiles| <= j < |r.rec.extractedFiles|
      ensures r.rec.extractedFiles[j] != CsvPath(dir, safeName)
    {
      NumberedNotCsv(r.rec.extractedFiles[j], dir, 0, r.images, safeName);
    }
  }

  lemma NumberedWiden(f: Path, dir: Path, lo: nat, hi: nat, lo2: nat, hi2: nat)
    requires NumberedImage(f, dir, lo, hi) && lo2 <= lo && hi <= hi2
    ensures NumberedImage(f, dir, lo2, hi2)
  {
    var n: nat, s :| lo < n <= hi && f == Child(dir, ExcelImageName(n, s));
  }

  lemma NumberedNotCsv(f: Path, dir: Path, lo: nat, hi: nat, safeName: string)
    requires NumberedImage(f, dir, lo, hi)
    ensures f != CsvPath(dir, safeName)
  {
    var n: nat, s :| lo < n <= hi && f == Child(dir, ExcelImageName(n, s));
    CsvIsNotImage(dir, safeName, n, s);
  }

  /** A CSV file and an image file never share a path: their names end differently. */
  lemma CsvIsNotImage(subdir: Path, safeName: string, n: nat, safeSheet: string)
    ensures CsvPath(subdir, safeName) != Child(subdir, ExcelImageName(n, safeSheet))
  {
    var a := safeName + ".csv";
    var b := ExcelImageName(n, safeSheet);
    assert a[|a| - 1] == 'v' && b[|b| - 1] == 'g';
    if Child(subdir, a) == Child(subdir, b) {
      ChildInjective(subdir, a, b);
    }
  }

  // ---------------------------------------------------------------------------------------
  // Properties of `extract`

  /**
   * The result names the file, is successful exactly when it holds no error, and holds at
   * most one error: sheet and chart failures are only warnings.
   */
  lemma ExtractConsistent(xlsxAvailable: bool, xlsAvailable: bool, filepath: Path, outputDir: Path, safe: string, env: ExcelEnv)
    ensures var r := ExcelExtract(xlsxAvailable, xlsAvailable, filepath, outputDir, safe, env);
      r.sourceFile == filepath && r.Consistent() && |r.errors| <= 1
  {
    if env.file.Ok? {
      var sheets := env.file.value;
      OpenedVerdict(Lower(Suffix(Name(filepath))) == ".xlsx", filepath, Child(outputDir, safe), sheets, env.workbook);
    }
  }

  /**
   * Which error a result ends with is decided by the extension before anything is read: a
   * supported extension without its library, or any other extension, is refused.
   */
  lemma ExtensionErrors(xlsxAvailable: bool, xlsAvailable: bool, filepath: Path, outputDir: Path, safe: string, env: ExcelEnv)
    requires env.outputDirOk
    ensures var r := ExcelExtract(xlsxAvailable, xlsAvailable, filepath, outputDir, safe, env);
      var ext := Lower(Suffix(Name(filepath)));
      && (ext == ".xlsx" && !xlsxAvailable ==> r.errors == [NoXlsx])
      && (ext == ".xls" && !xlsAvailable ==> r.errors == [NoXls])
      && (ext != ".xlsx" && ext != ".xls" ==> r.errors == [UnsupportedMessage(ext)])
      && (r.errors == [] ==> CanExtract(xlsxAvailable, xlsAvailable, filepath))
  {
  }

  /**
   * Once the workbook is read, the result names the file, holds no error, is successful,
   * ends with the no-data warning exactly when no file was written, and records the sheet
   * count and names; for an .xls workbook the files are the CSV files of the exported sheets.
   */
  lemma OpenedVerdict(isXlsx: bool, filepath: Path, subdir: Path, sheets: seq<Sheet>, workbook: Result<seq<WorkbookSheet>>)
    ensures var r := ExtractOpened(isXlsx, filepath, subdir, sheets, workbook);
      && r.sourceFile == filepath && r.errors == [] && r.success
      && (r.extractedFiles == [] ==> r.warnings != [] && r.warnings[|r.warnings| - 1] == NoData)
      && Lookup(r.metadata, "sheet_count") == Some(Count(|sheets|))
      && Lookup(r.metadata, "sheet_names") == Some(Names(SheetNames(sheets)))
      && (!isXlsx ==> |r.extractedFiles| == Exported(sheets))
  {
    var rec0 := OpenedRecord(filepath, sheets);
    var rec1 := NewRecord(filepath).WithMeta("sheet_count", Count(|sheets|));
    SetKeyLookup([], "sheet_count", Count(|sheets|), "sheet_count");
    SetKeyLookup(rec1.metadata, "sheet_names", Names(SheetNames(sheets)), "sheet_count");
    SetKeyLookup(rec1.metadata, "sheet_names", Names(SheetNames(sheets)), "sheet_names");
    var safe := SafeNames(SheetNames(sheets));
    SheetsFoldSpec(rec0, subdir, sheets, safe);
    var r := SheetsFold(rec0, subdir, sheets, safe);
    if isXlsx {
      ChartsOfKeeps(r, subdir, workbook, "sheet_count");
      ChartsOfKeeps(r, subdir, workbook, "sheet_names");
    }
  }

  /**
   * The chart step adds no error, keeps `success` and the files already recorded, and
   * touches no metadata key but `charts_found` and `images_extracted`.
   */
  lemma ChartsOfKeeps(rec: ResultRecord, dir: Path, workbook: Result<seq<WorkbookSheet>>, other: string)
    requires other != ChartsKey && other != "images_extracted"
    ensures var r := ChartsOf(rec, dir, workbook);
      && r.sourceFile == rec.sourceFile && r.success == rec.success && r.errors == rec.errors
      && |rec.extractedFiles| <= |r.extractedFiles| && r.extractedFiles[..|rec.extractedFiles|] == rec.extractedFiles
      && Lookup(r.metadata, other) == Lookup(rec.metadata, other)
  {
    if workbook.Ok? {
      var safe := SafeNames(WorkbookNames(workbook.value));
      var st := WorkbookFold(ChartRun(rec, 0, 0), dir, workbook.value, safe);
      WorkbookFoldCounts(ChartRun(rec, 0, 0), dir, workbook.value, safe);
      WorkbookMetadata(ChartRun(rec, 0, 0), dir, workbook.value, safe, other);
      var r1 := if st.charts > 0 then st.rec.WithMeta(ChartsKey, Count(st.charts)).WithWarning(ChartsWarning(st.charts)) else st.rec;
      SetKeyLookup(st.rec.metadata, ChartsKey, Count(st.charts), other);
      SetKeyLookup(r1.metadata, "images_extracted", Count(st.images), other);
    }
  }

  // ---------------------------------------------------------------------------------------
  // The extractor object

  class ExcelExtractor {
    const xlsxAvailable: bool
    const xlsAvailable: bool

    /** `ExcelExtractor(...)`: whether `import openpyxl` and `import xlrd` succeed. */
    constructor (xlsxAvailable: bool, xlsAvailable: bool)
      ensures this.xlsxAvailable == xlsxAvailable && this.xlsAvailable == xlsAvailable
    {
      this.xlsxAvailable := xlsxAvailable;
      this.xlsAvailable := xlsAvailable;
    }

    /** `_extract_sheet` with the handler around its call in `extract`. */
    method ExtractSheet(sheet: Sheet, subdir: Path, result: ExtractionResult)
      modifies result
      ensures result.Snapshot() == SheetStep(old(result.Snapshot()), subdir, sheet, Sanitize(sheet.name, DefaultMaxLength))
    {
      match sheet.content {
        case Err(e) =>
          result.AddWarning(SheetError(sheet.name, e));
        case Ok(df) =>
          if df.rows == 0 || df.cols == 0 {
            result.AddWarning(EmptySheet(sheet.name));
            return;
          }
          var sheetSafeName := SanitizeFilename(sheet.name, DefaultMaxLength);
          var csvFile := Child(subdir, sheetSafeName + ".csv");
          match sheet.csvWriteError {
            case Some(e) =>
              result.AddWarning(SheetError(sheet.name, e));
            case None =>
              result.AddFile(csvFile);
          }
      }
    }

    /** The image loop of one sheet in `_extract_charts`. */
    method SheetImages(dir: Path, safeSheet: string, imgs: seq<EmbeddedImage>, result: ExtractionResult, images0: nat, charts: nat)
      returns (images: nat)
      modifies result
      ensures ChartRun(result.Snapshot(), charts, images) == ImagesFold(ChartRun(old(result.Snapshot()), charts, images0), dir, safeSheet, imgs)
    {
      images := images0;
      for i := 0 to |imgs|
        invariant ChartRun(result.Snapshot(), charts, images) == ImagesFold(ChartRun(old(result.Snapshot()), charts, images0), dir, safeSheet, imgs[..i])
      {
        assert imgs[..i + 1][..i] == imgs[..i];
        images := images + 1;
        var imgPath := Child(dir, ExcelImageName(images, safeSheet));
        if imgs[i].hasData && imgs[i].saved {
          result.AddFile(imgPath);
        }
      }
      assert imgs[..|imgs|] == imgs;
    }

    /** The chart loop of one sheet in `_extract_charts`. */
    method SheetCharts(k: nat, result: ExtractionResult, charts0: nat, images: nat) returns (charts: nat)
      modifies result
      ensures ChartRun(result.Snapshot(), charts, images) == ChartsFold(ChartRun(old(result.Snapshot()), charts0, images), k)
    {
      charts := charts0;
      for c := 0 to k
        invariant ChartRun(result.Snapshot(), charts, images) == ChartsFold(ChartRun(old(result.Snapshot()), charts0, images), c)
      {
        charts := charts + 1;
        result.SetMetadata(ChartsKey, Count(charts));
      }
    }

    /** `_extract_charts` with the handler around its call in `extract`. */
    method ExtractCharts(dir: Path, workbook: Result<seq<WorkbookSheet>>, result: ExtractionResult)
      modifies result
      ensures result.Snapshot() == ChartsOf(old(result.Snapshot()), dir, workbook)
    {
      if workbook.Err? {
        result.AddWarning("Error extracting charts: " + workbook.message);
        return;
      }
      var sheets := workbook.value;
      var chartCount := 0;
      var imageCount := 0;
      ghost var st0 := ChartRun(result.Snapshot(), 0, 0);
      ghost var safe := SafeNames(WorkbookNames(sheets));
      for s := 0 to |sheets|
        invariant ChartRun(result.Snapshot(), chartCount, imageCount) == WorkbookFold(st0, dir, sheets[..s], safe[..s])
      {
        WorkbookFoldNext(st0, dir, sheets, safe, s);
        chartCount := SheetCharts(sheets[s].charts, result, chartCount, imageCount);
        var safeSheet := SanitizeFilename(sheets[s].name, DefaultMaxLength);
        assert WorkbookNames(sheets)[s] == sheets[s].name;
        assert safeSheet == safe[s];
        imageCount := SheetImages(dir, safeSheet, sheets[s].images, result, imageCount, chartCount);
      }
      assert sheets[..|sheets|] == sheets && safe[..|sheets|] == safe;
      if chartCount > 0 {
        result.SetMetadata(ChartsKey, Count(chartCount));
        result.AddWarning(ChartsWarning(chartCount));
      }
      if imageCount > 0 {
        result.SetMetadata("images_extracted", Count(imageCount));
      }
    }

    /** `extract(filepath, output_dir)`. */
    method Extract(filepath: Path, outputDir: Path, env: ExcelEnv) returns (r: ResultRecord)
      ensures r == ExcelExtract(xlsxAvailable, xlsAvailable, filepath, outputDir, Sanitize(Name(filepath), DefaultMaxLength), env)
    {
      var result := new ExtractionResult(filepath, true);
      if !env.outputDirOk {
        result.AddError(OutputDirError(outputDir));
        return result.Snapshot();
      }
      var ext := Lower(Suffix(Name(filepath)));
      if ext == ".xlsx" {
        if !xlsxAvailable {
          result.AddError(NoXlsx);
          return result.Snapshot();
        }
      } else if ext == ".xls" {
        if !xlsAvailable {
          result.AddError(NoXls);
          return result.Snapshot();
        }
      } else {
        result.AddError(UnsupportedMessage(ext));
        return result.Snapshot();
      }
      var fileSafeName := SanitizeFilename(Name(filepath), DefaultMaxLength);
      var fileOutputDir := Child(outputDir, fileSafeName);
      if !env.subdirOk {
        result.AddError(OutputDirError(fileOutputDir));
        return result.Snapshot();
      }
      if env.file.Err? {
        result.AddError(FailedMessage(filepath, env.file.message));
        return result.Snapshot();
      }
      ExtractWorkbook(ext == ".xlsx", filepath, fileOutputDir, env.file.value, env.workbook, result);
      r := result.Snapshot();
    }

    /** The body of `extract` from the read workbook on. */
    method ExtractWorkbook(isXlsx: bool, filepath: Path, subdir: Path, sheets: seq<Sheet>,
                           workbook: Result<seq<WorkbookSheet>>, result: ExtractionResult)
      requires result.Snapshot() == NewRecord(filepath)
      modifies result
      ensures result.Snapshot() == ExtractOpened(isXlsx, filepath, subdir, sheets, workbook)
    {
      result.SetMetadata("sheet_count", Count(|sheets|));
      result.SetMetadata("sheet_names", Names(SheetNames(sheets)));
      ghost var rec0 := result.Snapshot();
      ghost var safe := SafeNames(SheetNames(sheets));
      for i := 0 to |sheets|
        invariant result.Snapshot() == SheetsFold(rec0, subdir, sheets[..i], safe[..i])
      {
        SheetsFoldNext(rec0, subdir, sheets, safe, i);
        ExtractSheet(sheets[i], subdir, result);
      }
      assert sheets[..|sheets|] == sheets && safe[..|sheets|] == safe;
      if isXlsx {
        ExtractCharts(subdir, workbook, result);
      }
      if |result.extractedFiles| > 0 {
        result.MarkSuccess();
      } else {
        result.AddWarning(NoData);
      }
    }
  }
}
