/**
 * PDFExtractor: writes the text of every page of a PDF to one text file, each page under a
 * banner, and every embedded image to a file named after its page and its place on the page.
 *
 * The PyMuPDF document is given as a value; every call into the file system or a library
 * that can fail is a field of PdfEnv or of the document saying how it turns out.
 */
module PdfExtraction {
  import opened Wrappers
  import opened Strings
  import opened Paths
  import opened Base

  /** `can_extract`: a `.pdf` suffix in any letter case, and PyMuPDF importable. */
  predicate CanExtract(fitzAvailable: bool, filepath: Path) {
    Lower(Suffix(Name(filepath))) == ".pdf" && fitzAvailable
  }

  /**
   * One entry of a page's image list: the extension `extract_image` reports, whether
   * `extract_image` succeeds, and whether writing the bytes out succeeds.
   */
  datatype PdfImage = PdfImage(ext: string, extractOk: bool, writeOk: bool)

  /** A page: what `get_text()` returns, and what `get_images()` returns or raises. */
  datatype PdfPage = PdfPage(text: string, images: Result<seq<PdfImage>>)

  /** An opened document; `textError` is the exception, if any, raised while reading its text. */
  datatype PdfDoc = PdfDoc(pages: seq<PdfPage>, textError: Option<string>)

  /**
   * How the outside world answers: whether the output directory can be created, what
   * `fitz.open` gives, whether the text file can be written, whether PIL imports
   * (`pilError`) and whether the images directory can be created.
   */
  datatype PdfEnv = PdfEnv(
    outputDirOk: bool,
    document: Result<PdfDoc>,
    textWriteError: Option<string>,
    pilError: Option<string>,
    imagesDirOk: bool)

  const NotInstalled: string := "PyMuPDF (fitz) not installed - cannot process PDF files"
  const NoText: string := "No text content found in PDF"
  const NoData: string := "No data extracted from PDF"
  const EmptyPage: string := "[No text on this page]\n"

  // ---------------------------------------------------------------------------------------
  // _extract_text

  /** The parts one page contributes: a banner with its 1-based number, its text, a blank line. */
  function PageParts(n: nat, text: string): seq<string> {
    ["\n" + Banner + "\n", "Page " + NatToString(n) + "\n", Banner + "\n\n",
     if Strip(text) != "" then text else EmptyPage,
     "\n"]
  }

  function PagesParts(pages: seq<PdfPage>): seq<string> {
    if pages == [] then []
    else PagesParts(pages[..|pages| - 1]) + PageParts(|pages|, pages[|pages| - 1].text)
  }

  lemma PagesPartsStep(pages: seq<PdfPage>, n: nat)
    requires n < |pages|
    ensures PagesParts(pages[..n + 1]) == PagesParts(pages[..n])
      + ["\n" + Banner + "\n", "Page " + NatToString(n + 1) + "\n", Banner + "\n\n"]
      + [if Strip(pages[n].text) != "" then pages[n].text else EmptyPage] + ["\n"]
  {
    assert pages[..n + 1][..n] == pages[..n];
    var head := ["\n" + Banner + "\n", "Page " + NatToString(n + 1) + "\n", Banner + "\n\n"];
    var body := [if Strip(pages[n].text) != "" then pages[n].text else EmptyPage];
    assert PageParts(n + 1, pages[n].text) == head + body + ["\n"];
    assert PagesParts(pages[..n + 1]) == PagesParts(pages[..n]) + PageParts(n + 1, pages[n].text);
    AppendAssoc4(PagesParts(pages[..n]), head, body, ["\n"]);
  }

  /** What `_extract_text` returns. */
  function TextOf(doc: PdfDoc): string {
    if doc.textError.Some? then "" else Concat(PagesParts(doc.pages))
  }

  /** What `_extract_text` records: a warning when reading the text raised. */
  function TextRecord(rec: ResultRecord, doc: PdfDoc): ResultRecord {
    match doc.textError
    case Some(e) => rec.WithWarning("Text extraction error: " + e)
    case None => rec
  }

  // ---------------------------------------------------------------------------------------
  // _extract_images

  /** `page{p}_img{i}.{ext}`, both numbers 1-based. */
  function PdfImageName(page: nat, index: nat, ext: string): string {
    "page" + NatToString(page) + "_img" + NatToString(index) + "." + ext
  }

  /**
   * The result record and the image counter while the pages are visited, and the exception
   * that ended the visit, if one did.
   */
  datatype ImageRun = ImageRun(rec: ResultRecord, count: nat, error: Option<string>)

  /** One image of the inner loop: `index` is its 1-based place on page `page`. */
  function ImageStep(st: ImageRun, dir: Path, page: nat, index: nat, img: PdfImage): ImageRun {
    if !img.extractOk then st
    else
      var path := Child(dir, PdfImageName(page, index, img.ext));
      st.(rec := if img.writeOk then st.rec.WithFile(path) else st.rec, count := st.count + 1)
  }

  /** The inner loop over the images of page `page`. */
  function PageImagesFold(st: ImageRun, dir: Path, page: nat, imgs: seq<PdfImage>): ImageRun {
    if imgs == [] then st
    else ImageStep(PageImagesFold(st, dir, page, imgs[..|imgs| - 1]), dir, page, |imgs|, imgs[|imgs| - 1])
  }

  /** The outer loop over the pages; once a page's image list raises, nothing else happens. */
  function PagesFold(st: ImageRun, dir: Path, pages: seq<PdfPage>): ImageRun {
    if pages == [] then st
    else
      var s := PagesFold(st, dir, pages[..|pages| - 1]);
      if s.error.Some? then s
      else match pages[|pages| - 1].images
        case Err(e) => s.(error := Some(e))
        case Ok(imgs) => PageImagesFold(s, dir, |pages|, imgs)
  }

  /** What `_extract_images` records and returns: the new record and the image count. */
  function ImagesOf(rec: ResultRecord, doc: PdfDoc, dir: Path, env: PdfEnv): (ResultRecord, nat) {
    if env.pilError.Some? then (rec.WithWarning("Image extraction error: " + env.pilError.value), 0)
    else if !env.imagesDirOk then (rec.WithWarning(ImagesDirWarning(dir)), 0)
    else
      var r := PagesFold(ImageRun(rec, 0, None), dir, doc.pages);
      match r.error
      case Some(e) => (r.rec.WithWarning("Image extraction error: " + e), 0)
      case None => (r.rec, r.count)
  }

  // ---------------------------------------------------------------------------------------
  // extract

  /** Whether the text file is written: `text_content.strip()` is non-empty. */
  predicate HasText(doc: PdfDoc) {
    Strip(TextOf(doc)) != ""
  }

  /** Whether `extract` gets past opening the document. */
  predicate Opens(fitzAvailable: bool, env: PdfEnv) {
    fitzAvailable && env.outputDirOk && env.document.Ok?
  }

  /** Whether writing the text file raises. */
  predicate TextWriteFails(doc: PdfDoc, env: PdfEnv) {
    HasText(doc) && env.textWriteError.Some?
  }

  /** The record `extract` starts from once the document is open. */
  function OpenedRecord(filepath: Path, doc: PdfDoc): ResultRecord {
    NewRecord(filepath).WithMeta("page_count", Count(|doc.pages|))
  }

  /** The record after the text step, when the text file is not the cause of a failure. */
  function AfterText(rec: ResultRecord, doc: PdfDoc, textOutput: Path): ResultRecord {
    var r := TextRecord(rec, doc);
    if HasText(doc) then r.WithFile(textOutput) else r.WithWarning(NoText)
  }

  /** What `extract` does once the document is open; `safe` is the sanitized file name. */
  function ExtractOpened(filepath: Path, outputDir: Path, safe: string, doc: PdfDoc, env: PdfEnv): ResultRecord {
    var rec := OpenedRecord(filepath, doc);
    if TextWriteFails(doc, env) then
      TextRecord(rec, doc).WithError(FailedMessage(filepath, env.textWriteError.value))
    else
      var im := ImagesOf(AfterText(rec, doc, TextOutput(outputDir, safe)), doc, ImagesDir(outputDir, safe), env);
      Conclude(im.0, im.1, NoData)
  }

  /** `extract(filepath, output_dir)`, where `safe` is the sanitized name of the file. */
  function PdfExtract(fitzAvailable: bool, filepath: Path, outputDir: Path, safe: string, env: PdfEnv): ResultRecord {
    var rec := NewRecord(filepath);
    if !fitzAvailable then rec.WithError(NotInstalled)
    else if !env.outputDirOk then rec.WithError(OutputDirError(outputDir))
    else match env.document
      case Err(e) => rec.WithError(FailedMessage(filepath, e))
      case Ok(doc) => ExtractOpened(filepath, outputDir, safe, doc, env)
  }

  // ---------------------------------------------------------------------------------------
  // Properties of the text

  /**
   * Every page header is visible text, so the text file is written exactly when the document
   * has a page and reading its text did not raise; "No text content found in PDF" can only
   * mean an empty document or a text error, never pages without text.
   */
  lemma TextIff(doc: PdfDoc)
    ensures HasText(doc) <==> doc.textError.None? && doc.pages != []
  {
    if doc.textError.None? {
      var parts := PagesParts(doc.pages);
      StripEmptyIffBlank(Concat(parts));
      ConcatBlank(parts);
      if doc.pages != [] {
        PagesNotBlank(doc.pages);
      }
    }
  }

  /** With a page, some part is not blank: the `Page n` line starts with a letter. */
  lemma PagesNotBlank(pages: seq<PdfPage>)
    requires pages != []
    ensures exists i :: 0 <= i < |PagesParts(pages)| && !IsBlank(PagesParts(pages)[i])
  {
    var init := PagesParts(pages[..|pages| - 1]);
    var last := PageParts(|pages|, pages[|pages| - 1].text);
    assert PagesParts(pages) == init + last;
    var line := last[1];
    assert line[0] == 'P' && !IsSpace(line[0]);
    assert PagesParts(pages)[|init| + 1] == line;
  }

  /** The text holds one banner block per page: five parts each. */
  lemma {:induction false} PagesPartsLength(pages: seq<PdfPage>)
    ensures |PagesParts(pages)| == 5 * |pages|
  {
    if pages != [] {
      PagesPartsLength(pages[..|pages| - 1]);
    }
  }

  // ---------------------------------------------------------------------------------------
  // Properties of the images

  /** Images whose bytes `extract_image` returns. */
  function Extracted(imgs: seq<PdfImage>): nat {
    if imgs == [] then 0 else Extracted(imgs[..|imgs| - 1]) + (if imgs[|imgs| - 1].extractOk then 1 else 0)
  }

  /** Images whose bytes are returned and written out. */
  function Written(imgs: seq<PdfImage>): nat {
    if imgs == [] then 0
    else Written(imgs[..|imgs| - 1]) + (if imgs[|imgs| - 1].extractOk && imgs[|imgs| - 1].writeOk then 1 else 0)
  }

  /** Extracted images over the pages whose image list can be read. */
  function PagesExtracted(pages: seq<PdfPage>): nat {
    if pages == [] then 0
    else
      var p := pages[|pages| - 1];
      PagesExtracted(pages[..|pages| - 1]) + (if p.images.Ok? then Extracted(p.images.value) else 0)
  }

  /** Written images over the pages whose image list can be read. */
  function PagesWritten(pages: seq<PdfPage>): nat {
    if pages == [] then 0
    else
      var p := pages[|pages| - 1];
      PagesWritten(pages[..|pages| - 1]) + (if p.images.Ok? then Written(p.images.value) else 0)
  }

  /** The image name, bracketed from the right. */
  lemma PdfImageNameShape(p: nat, i: nat, e: string)
    ensures PdfImageName(p, i, e) == "page" + (NatToString(p) + ("_img" + (NatToString(i) + ("." + e))))
  {
  }

  /** The numbers in an image name can be read back: different places give different names. */
  lemma PdfImageNameInjective(p1: nat, i1: nat, e1: string, p2: nat, i2: nat, e2: string)
    requires PdfImageName(p1, i1, e1) == PdfImageName(p2, i2, e2)
    ensures p1 == p2 && i1 == i2
  {
    PdfImageNameShape(p1, i1, e1);
    PdfImageNameShape(p2, i2, e2);
    TwoNumbersInjective("page", "_img", p1, i1, e1, p2, i2, e2);
  }

  /** The file of an image on page `page`, at a place up to `hi`, with some extension. */
  ghost predicate OnPage(f: Path, dir: Path, page: nat, hi: nat) {
    exists i: nat, e: string :: 1 <= i <= hi && f == Child(dir, PdfImageName(page, i, e))
  }

  /** The file of an image on a page up to `hi`. */
  ghost predicate OnPages(f: Path, dir: Path, hi: nat) {
    exists p: nat, i: nat, e: string :: 1 <= p <= hi && f == Child(dir, PdfImageName(p, i, e))
  }

  /** Image files of two different places never share a path. */
  lemma DistinctPlaces(dir: Path, p1: nat, i1: nat, e1: string, p2: nat, i2: nat, e2: string)
    requires p1 != p2 || i1 != i2
    ensures Child(dir, PdfImageName(p1, i1, e1)) != Child(dir, PdfImageName(p2, i2, e2))
  {
    var a := PdfImageName(p1, i1, e1);
    var b := PdfImageName(p2, i2, e2);
    if Child(dir, a) == Child(dir, b) {
      assert a[0] == 'p' && b[0] == 'p';
      ChildInjective(dir, a, b);
      PdfImageNameInjective(p1, i1, e1, p2, i2, e2);
    }
  }

  /** The part of the record the image loops leave alone. */
  predicate SameApartFromFiles(a: ResultRecord, b: ResultRecord) {
    a.sourceFile == b.sourceFile && a.success == b.success && a.errors == b.errors
    && a.warnings == b.warnings && a.metadata == b.metadata
    && |a.extractedFiles| <= |b.extractedFiles| && b.extractedFiles[..|a.extractedFiles|] == a.extractedFiles
  }

  /**
   * The images of one page: nothing but files changes, every image whose bytes are returned
   * is counted (a failed write still counts), every written one is recorded under a name for
   * its place on the page, and no two of them share a path.
   */
  lemma {:induction false} PageImagesFoldSpec(st: ImageRun, dir: Path, page: nat, imgs: seq<PdfImage>)
    ensures var f := PageImagesFold(st, dir, page, imgs);
      var k := |st.rec.extractedFiles|;
      && f.error == st.error
      && SameApartFromFiles(st.rec, f.rec)
      && f.count == st.count + Extracted(imgs)
      && |f.rec.extractedFiles| == k + Written(imgs)
      && (forall j :: k <= j < |f.rec.extractedFiles| ==> OnPage(f.rec.extractedFiles[j], dir, page, |imgs|))
      && (forall a, b :: k <= a < b < |f.rec.extractedFiles| ==> f.rec.extractedFiles[a] != f.rec.extractedFiles[b])
  {
    if imgs != [] {
      var init := imgs[..|imgs| - 1];
      var img := imgs[|imgs| - 1];
      PageImagesFoldSpec(st, dir, page, init);
      var g := PageImagesFold(st, dir, page, init);
      var f := PageImagesFold(st, dir, page, imgs);
      var k := |st.rec.extractedFiles|;
      forall j | k <= j < |g.rec.extractedFiles|
        ensures OnPage(g.rec.extractedFiles[j], dir, page, |imgs|)
      {
        var i: nat, e :| 1 <= i <= |init| && g.rec.extractedFiles[j] == Child(dir, PdfImageName(page, i, e));
      }
      if img.extractOk && img.writeOk {
        var last := Child(dir, PdfImageName(page, |imgs|, img.ext));
        assert f.rec.extractedFiles == g.rec.extractedFiles + [last];
        assert (g.rec.extractedFiles + [last])[..k] == g.rec.extractedFiles[..k];
        assert OnPage(last, dir, page, |imgs|);
        forall j | k <= j < |g.rec.extractedFiles|
          ensures g.rec.extractedFiles[j] != last
        {
          var i: nat, e :| 1 <= i <= |init| && g.rec.extractedFiles[j] == Child(dir, PdfImageName(page, i, e));
          DistinctPlaces(dir, page, i, e, page, |imgs|, img.ext);
        }
      }
    }
  }

  /** Once a page's image list has raised, the later pages change nothing. */
  lemma {:induction false} PagesFoldSticky(st: ImageRun, dir: Path, pages: seq<PdfPage>, k: nat)
    requires k <= |pages| && PagesFold(st, dir, pages[..k]).error.Some?
    ensures PagesFold(st, dir, pages) == PagesFold(st, dir, pages[..k])
    decreases |pages| - k
  {
    if k < |pages| {
      var init := pages[..|pages| - 1];
      assert init[..k] == pages[..k];
      PagesFoldSticky(st, dir, init, k);
    } else {
      assert pages[..k] == pages;
    }
  }

  /**
   * All pages: nothing but files changes; every recorded file is named after a page and a
   * place on it, no two share a path, and when no image list raised, the count is every
   * extracted image and the files are every written one.
   */
  lemma {:induction false} PagesFoldSpec(st: ImageRun, dir: Path, pages: seq<PdfPage>)
    requires st.error.None?
    ensures var f := PagesFold(st, dir, pages);
      var k := |st.rec.extractedFiles|;
      && SameApartFromFiles(st.rec, f.rec)
      && (forall j :: k <= j < |f.rec.extractedFiles| ==> OnPages(f.rec.extractedFiles[j], dir, |pages|))
      && (forall a, b :: k <= a < b < |f.rec.extractedFiles| ==> f.rec.extractedFiles[a] != f.rec.extractedFiles[b])
      && (f.error.None? ==>
            f.count == st.count + PagesExtracted(pages) && |f.rec.extractedFiles| == k + PagesWritten(pages))
  {
    if pages != [] {
      var init := pages[..|pages| - 1];
      var n := |pages|;
      PagesFoldSpec(st, dir, init);
      var g := PagesFold(st, dir, init);
      var f := PagesFold(st, dir, pages);
      var k := |st.rec.extractedFiles|;
      forall j | k <= j < |g.rec.extractedFiles|
        ensures OnPages(g.rec.extractedFiles[j], dir, n)
      {
        var p: nat, i: nat, e :| 1 <= p <= |init| && g.rec.extractedFiles[j] == Child(dir, PdfImageName(p, i, e));
      }
      if g.error.None? && pages[n - 1].images.Ok? {
        var imgs := pages[n - 1].images.value;
        PageImagesFoldSpec(g, dir, n, imgs);
        var m := |g.rec.extractedFiles|;
        assert f == PageImagesFold(g, dir, n, imgs);
        NextPageFiles(dir, n, |imgs|, k, g.rec.extractedFiles, f.rec.extractedFiles);
      }
    }
  }

  /**
   * The files of page `n` appended after those of the earlier pages: all lie on the first `n`
   * pages and no two of them share a path.
   */
  lemma NextPageFiles(dir: Path, n: nat, hi: nat, k: nat, before: seq<Path>, after: seq<Path>)
    requires 1 <= n && k <= |before| <= |after| && after[..|before|] == before
    requires forall j :: k <= j < |before| ==> OnPages(before[j], dir, n - 1)
    requires forall a, b :: k <= a < b < |before| ==> before[a] != before[b]
    requires forall j :: |before| <= j < |after| ==> OnPage(after[j], dir, n, hi)
    requires forall a, b :: |before| <= a < b < |after| ==> after[a] != after[b]
    ensures after[..k] == before[..k]
    ensures forall j :: k <= j < |after| ==> OnPages(after[j], dir, n)
    ensures forall a, b :: k <= a < b < |after| ==> after[a] != after[b]
  {
    var m := |before|;
    assert after[..k] == after[..m][..k];
    forall j | k <= j < |after| ensures OnPages(after[j], dir, n) {
      if j < m {
        assert after[j] == before[j];
        var p: nat, i: nat, e :| 1 <= p <= n - 1 && before[j] == Child(dir, PdfImageName(p, i, e));
      } else {
        var i: nat, e :| 1 <= i <= hi && after[j] == Child(dir, PdfImageName(n, i, e));
      }
    }
    forall a, b | k <= a < b < |after| ensures after[a] != after[b] {
      if b < m {
        assert after[a] == before[a] && after[b] == before[b];
      } else if a < m {
        assert after[a] == before[a];
        var p: nat, i: nat, e :| 1 <= p <= n - 1 && before[a] == Child(dir, PdfImageName(p, i, e));
        assert OnPage(after[b], dir, n, hi);
        var i': nat, e' :| 1 <= i' <= hi && after[b] == Child(dir, PdfImageName(n, i', e'));
        DistinctPlaces(dir, p, i, e, n, i', e');
      }
    }
  }

  /**
   * When a page's image list raises, `_extract_images` returns 0 and no `images_extracted`
   * entry follows, yet the files of the earlier pages stay recorded.
   */
  lemma AbortKeepsFiles(rec: ResultRecord, doc: PdfDoc, dir: Path, env: PdfEnv)
    requires env.pilError.None? && env.imagesDirOk
    requires PagesFold(ImageRun(rec, 0, None), dir, doc.pages).error.Some?
    ensures var im := ImagesOf(rec, doc, dir, env);
      im.1 == 0 && im.0.extractedFiles == PagesFold(ImageRun(rec, 0, None), dir, doc.pages).rec.extractedFiles
      && |im.0.warnings| == |rec.warnings| + 1
  {
    PagesFoldSpec(ImageRun(rec, 0, None), dir, doc.pages);
  }

  // ---------------------------------------------------------------------------------------
  // Properties of `extract`

  /**
   * `_extract_images` as a whole adds no error and keeps `success`, the metadata and the files
   * already recorded; every file it adds is an image file of some page.
   */
  lemma ImagesOfSpec(rec: ResultRecord, doc: PdfDoc, dir: Path, env: PdfEnv)
    ensures var im := ImagesOf(rec, doc, dir, env);
      var k := |rec.extractedFiles|;
      && im.0.sourceFile == rec.sourceFile && im.0.success == rec.success
      && im.0.errors == rec.errors && im.0.metadata == rec.metadata
      && k <= |im.0.extractedFiles| && im.0.extractedFiles[..k] == rec.extractedFiles
      && (forall j :: k <= j < |im.0.extractedFiles| ==> OnPages(im.0.extractedFiles[j], dir, |doc.pages|))
  {
    if env.pilError.None? && env.imagesDirOk {
      PagesFoldSpec(ImageRun(rec, 0, None), dir, doc.pages);
    }
  }

  /**
   * The result names the file, is successful exactly when it holds no error, and holds at
   * most one error: every error ends the extraction.
   */
  lemma ExtractConsistent(fitzAvailable: bool, filepath: Path, outputDir: Path, safe: string, env: PdfEnv)
    ensures var r := PdfExtract(fitzAvailable, filepath, outputDir, safe, env);
      r.sourceFile == filepath && r.Consistent() && |r.errors| <= 1
  {
    if Opens(fitzAvailable, env) && !TextWriteFails(env.document.value, env) {
      var doc := env.document.value;
      var rec := AfterText(OpenedRecord(filepath, doc), doc, TextOutput(outputDir, safe));
      ImagesOfSpec(rec, doc, ImagesDir(outputDir, safe), env);
    }
  }

  /** Once the document is open and the text step passes, the page count survives to the end. */
  lemma PageCountKept(filepath: Path, outputDir: Path, safe: string, doc: PdfDoc, env: PdfEnv)
    requires !TextWriteFails(doc, env)
    ensures Lookup(ExtractOpened(filepath, outputDir, safe, doc, env).metadata, "page_count") == Some(Count(|doc.pages|))
  {
    var rec := AfterText(OpenedRecord(filepath, doc), doc, TextOutput(outputDir, safe));
    SetKeyLookup([], "page_count", Count(|doc.pages|), "page_count");
    assert Lookup(rec.metadata, "page_count") == Some(Count(|doc.pages|));
    var im := ImagesOf(rec, doc, ImagesDir(outputDir, safe), env);
    ImagesOfSpec(rec, doc, ImagesDir(outputDir, safe), env);
    SetKeyLookup(im.0.metadata, "images_extracted", Count(im.1), "page_count");
  }

  /**
   * A result that holds no error has run to the end: it is successful, records the page
   * count, and when nothing was extracted its last warning says so.
   */
  lemma NoErrorVerdict(fitzAvailable: bool, filepath: Path, outputDir: Path, safe: string, env: PdfEnv)
    ensures var r := PdfExtract(fitzAvailable, filepath, outputDir, safe, env);
      r.errors == [] ==>
        && r.success
        && Opens(fitzAvailable, env)
        && Lookup(r.metadata, "page_count") == Some(Count(|env.document.value.pages|))
        && (r.extractedFiles == [] ==> r.warnings != [] && r.warnings[|r.warnings| - 1] == NoData)
  {
    ExtractConsistent(fitzAvailable, filepath, outputDir, safe, env);
    if Opens(fitzAvailable, env) && !TextWriteFails(env.document.value, env) {
      PageCountKept(filepath, outputDir, safe, env.document.value, env);
    }
  }

  /** The image files live one level below the output directory, in the images directory. */
  lemma ImageFileDepth(outputDir: Path, safe: string, p: nat, i: nat, e: string)
    ensures Child(ImagesDir(outputDir, safe), PdfImageName(p, i, e)).parts
      == outputDir.parts + [safe + "_images", PdfImageName(p, i, e)]
  {
    assert safe + "_images" != "";
    assert PdfImageName(p, i, e) != "";
  }

  /** No image file is the text file. */
  lemma ImageFileNotText(outputDir: Path, safe: string, f: Path, hi: nat)
    requires OnPages(f, ImagesDir(outputDir, safe), hi)
    ensures f != TextOutput(outputDir, safe)
  {
    var p: nat, i: nat, e :| 1 <= p <= hi && f == Child(ImagesDir(outputDir, safe), PdfImageName(p, i, e));
    ImageFileDepth(outputDir, safe, p, i, e);
    assert |TextOutput(outputDir, safe).parts| == |outputDir.parts| + 1 by {
      assert safe + ".txt" != "";
    }
  }

  /**
   * Once the document is open, a result without error lists the text file exactly when the
   * document has a page and its text could be read, and then lists it first.
   */
  lemma TextFileIff(filepath: Path, outputDir: Path, safe: string, doc: PdfDoc, env: PdfEnv)
    ensures var r := ExtractOpened(filepath, outputDir, safe, doc, env);
      var out := TextOutput(outputDir, safe);
      && (r.errors == [] ==> (out in r.extractedFiles <==> doc.textError.None? && doc.pages != []))
      && (r.errors == [] && doc.pages != [] && doc.textError.None? ==> r.extractedFiles[0] == out)
  {
    var out := TextOutput(outputDir, safe);
    var dir := ImagesDir(outputDir, safe);
    TextIff(doc);
    if !TextWriteFails(doc, env) {
      var rec := AfterText(OpenedRecord(filepath, doc), doc, out);
      assert rec.extractedFiles == if HasText(doc) then [out] else [];
      ImagesOfSpec(rec, doc, dir, env);
      var files := ImagesOf(rec, doc, dir, env).0.extractedFiles;
      var k := |rec.extractedFiles|;
      forall j | k <= j < |files|
        ensures files[j] != out
      {
        ImageFileNotText(outputDir, safe, files[j], |doc.pages|);
      }
      assert files == files[..k] + files[k..];
      assert out !in files[k..];
    }
  }

  // ---------------------------------------------------------------------------------------
  // The extractor object

  class PdfExtractor {
    const fitzAvailable: bool

    /** `PDFExtractor(...)`: `fitzAvailable` is whether `import fitz` succeeds. */
    constructor (fitzAvailable: bool)
      ensures this.fitzAvailable == fitzAvailable
    {
      this.fitzAvailable := fitzAvailable;
    }

    /** `_extract_text`, writing into `result`. */
    method ExtractText(doc: PdfDoc, result: ExtractionResult) returns (text: string)
      modifies result
      ensures text == TextOf(doc)
      ensures result.Snapshot() == TextRecord(old(result.Snapshot()), doc)
    {
      if doc.textError.Some? {
        result.AddWarning("Text extraction error: " + doc.textError.value);
        return "";
      }
      var parts: seq<string> := [];
      var pages := doc.pages;
      for n := 0 to |pages|
        invariant parts == PagesParts(pages[..n])
        invariant result.Snapshot() == old(result.Snapshot())
      {
        PagesPartsStep(pages, n);
        parts := parts + ["\n" + Banner + "\n", "Page " + NatToString(n + 1) + "\n", Banner + "\n\n"];
        var t := pages[n].text;
        if Strip(t) != "" {
          parts := parts + [t];
        } else {
          parts := parts + [EmptyPage];
        }
        parts := parts + ["\n"];
      }
      assert pages[..|pages|] == pages;
      text := Concat(parts);
    }

    /** The inner loop of `_extract_images` over the images of page `page`. */
    method PageImages(dir: Path, page: nat, imgs: seq<PdfImage>, result: ExtractionResult, count0: nat)
      returns (count: nat)
      modifies result
      ensures ImageRun(result.Snapshot(), count, None) == PageImagesFold(ImageRun(old(result.Snapshot()), count0, None), dir, page, imgs)
    {
      count := count0;
      for i := 0 to |imgs|
        invariant ImageRun(result.Snapshot(), count, None) == PageImagesFold(ImageRun(old(result.Snapshot()), count0, None), dir, page, imgs[..i])
      {
        assert imgs[..i + 1][..i] == imgs[..i];
        var img := imgs[i];
        if img.extractOk {
          count := count + 1;
          var imgPath := Child(dir, PdfImageName(page, i + 1, img.ext));
          if img.writeOk {
            result.AddFile(imgPath);
          }
        }
      }
      assert imgs[..|imgs|] == imgs;
    }

    /** `_extract_images`, writing into `result`. */
    method ExtractImages(doc: PdfDoc, dir: Path, env: PdfEnv, result: ExtractionResult) returns (count: nat)
      modifies result
      ensures (result.Snapshot(), count) == ImagesOf(old(result.Snapshot()), doc, dir, env)
    {
      if env.pilError.Some? {
        result.AddWarning("Image extraction error: " + env.pilError.value);
        return 0;
      }
      if !env.imagesDirOk {
        result.AddWarning(ImagesDirWarning(dir));
        return 0;
      }
      count := 0;
      var pages := doc.pages;
      ghost var st0 := ImageRun(result.Snapshot(), 0, None);
      for p := 0 to |pages|
        invariant ImageRun(result.Snapshot(), count, None) == PagesFold(st0, dir, pages[..p])
      {
        assert pages[..p + 1][..p] == pages[..p];
        match pages[p].images {
          case Err(e) =>
            PagesFoldSticky(st0, dir, pages, p + 1);
            result.AddWarning("Image extraction error: " + e);
            return 0;
          case Ok(imgs) =>
            count := PageImages(dir, p + 1, imgs, result, count);
        }
      }
      assert pages[..|pages|] == pages;
    }

    /** `extract(filepath, output_dir)`. */
    method Extract(filepath: Path, outputDir: Path, env: PdfEnv) returns (r: ResultRecord)
      ensures r == PdfExtract(fitzAvailable, filepath, outputDir, Sanitize(Name(filepath), DefaultMaxLength), env)
    {
      var result := new ExtractionResult(filepath, true);
      if !fitzAvailable {
        result.AddError(NotInstalled);
        return result.Snapshot();
      }
      if !env.outputDirOk {
        result.AddError(OutputDirError(outputDir));
        return result.Snapshot();
      }
      var fileSafeName := SanitizeFilename(Name(filepath), DefaultMaxLength);
      if env.document.Err? {
        result.AddError(FailedMessage(filepath, env.document.message));
        return result.Snapshot();
      }
      ExtractDocument(filepath, outputDir, env.document.value, env, fileSafeName, result);
      r := result.Snapshot();
    }

    /** The body of `extract` from the opened document on. */
    method ExtractDocument(filepath: Path, outputDir: Path, doc: PdfDoc, env: PdfEnv, fileSafeName: string,
                           result: ExtractionResult)
      requires result.Snapshot() == NewRecord(filepath)
      modifies result
      ensures result.Snapshot() == ExtractOpened(filepath, outputDir, fileSafeName, doc, env)
    {
      var imagesDir := ImagesDir(outputDir, fileSafeName);
      result.SetMetadata("page_count", Count(|doc.pages|));
      var textOutput := TextOutput(outputDir, fileSafeName);
      var textContent := ExtractText(doc, result);
      if Strip(textContent) != "" {
        if env.textWriteError.Some? {
          result.AddError(FailedMessage(filepath, env.textWriteError.value));
          return;
        }
        result.AddFile(textOutput);
      } else {
        result.AddWarning(NoText);
      }
      var imageCount := ExtractImages(doc, imagesDir, env, result);
      if imageCount > 0 {
        result.SetMetadata("images_extracted", Count(imageCount));
      }
      if |result.extractedFiles| > 0 {
        result.MarkSuccess();
      } else {
        result.AddWarning(NoData);
      }
    }
  }
}
