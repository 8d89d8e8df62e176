/**
 * WordExtractor: writes the text of a .docx document (paragraphs, then tables) to one text
 * file and every embedded image to a numbered file in an images directory.
 *
 * The python-docx document is given as a value; every call into the file system or a
 * library that can fail is a field of WordEnv saying how it turns out.
 */
module WordExtraction {
  import opened Wrappers
  import opened Strings
  import opened Paths
  import opened Base

  /** `can_extract`: a `.docx` suffix in any letter case, and python-docx importable. */
  predicate CanExtract(docxAvailable: bool, filepath: Path) {
    Lower(Suffix(Name(filepath))) == ".docx" && docxAvailable
  }

  datatype Paragraph = Paragraph(text: string, styleName: string)

  /**
   * One relationship of the document part: its target reference, the content type of its
   * target, whether reading the target's bytes succeeds and whether writing them out does.
   */
  datatype Relationship = Relationship(targetRef: string, contentType: string, blobOk: bool, writeOk: bool)

  /** A table is its rows, a row its cell texts. */
  type Table = seq<seq<string>>

  /**
   * An opened document. `textError` is the exception, if any, raised while reading its
   * paragraphs and tables; `relsError` the one raised while listing its relationships.
   */
  datatype WordDoc = WordDoc(
    paragraphs: seq<Paragraph>,
    tables: seq<Table>,
    textError: Option<string>,
    rels: seq<Relationship>,
    relsError: Option<string>)

  /**
   * How the outside world answers: whether PIL imports (`importError`), whether the output
   * and images directories can be created, what opening the document gives, and whether the
   * text file can be written.
   */
  datatype WordEnv = WordEnv(
    importError: Option<string>,
    outputDirOk: bool,
    document: Result<WordDoc>,
    textWriteError: Option<string>,
    imagesDirOk: bool)

  const NotInstalled: string := "python-docx not installed - cannot process Word documents"
  const NoData: string := "No data extracted from Word document"

  // ---------------------------------------------------------------------------------------
  // _extract_text

  /** A heading between two banners. */
  function HeadingParts(t: string): seq<string> {
    ["\n" + Banner + "\n", t + "\n", Banner + "\n\n"]
  }

  /** The text parts one paragraph contributes: none when blank, a banner around a heading. */
  function ParagraphParts(p: Paragraph): seq<string> {
    var t := Strip(p.text);
    if t == "" then []
    else if StartsWith(p.styleName, "Heading") then HeadingParts(t)
    else [t + "\n\n"]
  }

  function ParagraphsParts(ps: seq<Paragraph>): seq<string> {
    if ps == [] then [] else ParagraphsParts(ps[..|ps| - 1]) + ParagraphParts(ps[|ps| - 1])
  }

  /** `' | '.join(cell.text.strip() for cell in row.cells)` */
  function RowText(cells: seq<string>): string {
    Join(" | ", seq(|cells|, i requires 0 <= i < |cells| => Strip(cells[i])))
  }

  function RowParts(cells: seq<string>): seq<string> {
    if RowText(cells) == "" then [] else [RowText(cells) + "\n"]
  }

  function RowsParts(rows: Table): seq<string> {
    if rows == [] then [] else RowsParts(rows[..|rows| - 1]) + RowParts(rows[|rows| - 1])
  }

  function TableHeading(index: nat): string {
    "--- Table " + NatToString(index) + " ---\n"
  }

  /** The parts of the `index`-th table, counting from 1. */
  function TableParts(index: nat, rows: Table): seq<string> {
    [TableHeading(index)] + RowsParts(rows) + ["\n"]
  }

  function TablesParts(ts: seq<Table>): seq<string> {
    if ts == [] then [] else TablesParts(ts[..|ts| - 1]) + TableParts(|ts|, ts[|ts| - 1])
  }

  lemma TablesPartsStep(tables: seq<Table>, t: nat)
    requires t < |tables|
    ensures TablesParts(tables[..t + 1]) == TablesParts(tables[..t]) + [TableHeading(t + 1)] + RowsParts(tables[t]) + ["\n"]
  {
    assert tables[..t + 1][..t] == tables[..t];
  }

  function TablesHeader(): seq<string> {
    ["\n" + Banner + "\n", "TABLES\n", Banner + "\n\n"]
  }

  function TextParts(doc: WordDoc): seq<string> {
    ParagraphsParts(doc.paragraphs) + (if doc.tables == [] then [] else TablesHeader() + TablesParts(doc.tables))
  }

  /** What `_extract_text` returns. */
  function TextOf(doc: WordDoc): string {
    if doc.textError.Some? then "" else Concat(TextParts(doc))
  }

  /** What `_extract_text` records: the two counts, or a warning when reading failed. */
  function TextRecord(rec: ResultRecord, doc: WordDoc): ResultRecord {
    match doc.textError
    case Some(e) => rec.WithWarning("Text extraction error: " + e)
    case None =>
      rec.WithMeta("paragraph_count", Count(|doc.paragraphs|)).WithMeta("table_count", Count(|doc.tables|))
  }

  // ---------------------------------------------------------------------------------------
  // _extract_images

  /** The first of png, jpeg/jpg, gif, bmp named in the content type; png otherwise. */
  function ImageExtension(contentType: string): string {
    if Contains(contentType, "png") then "png"
    else if Contains(contentType, "jpeg") || Contains(contentType, "jpg") then "jpg"
    else if Contains(contentType, "gif") then "gif"
    else if Contains(contentType, "bmp") then "bmp"
    else "png"
  }

  /** `f"image{n}.{ext}"` */
  function ImageName(n: nat, ext: string): string {
    "image" + NatToString(n) + "." + ext
  }

  predicate IsImageRel(rel: Relationship) {
    Contains(rel.targetRef, "image")
  }

  /** The result record and the image counter while the relationships are visited. */
  datatype ImageState = ImageState(rec: ResultRecord, count: nat)

  /** One relationship of the loop in `_extract_images`. */
  function ImageStep(st: ImageState, rel: Relationship, dir: Path, dirOk: bool): ImageState {
    if !IsImageRel(rel) then st
    else if !dirOk then st.(rec := st.rec.WithWarning(ImagesDirWarning(dir)))
    else if !rel.blobOk then st
    else
      var n := st.count + 1;
      var path := Child(dir, ImageName(n, ImageExtension(rel.contentType)));
      ImageState(if rel.writeOk then st.rec.WithFile(path) else st.rec, n)
  }

  function ImagesFold(st: ImageState, rels: seq<Relationship>, dir: Path, dirOk: bool): ImageState {
    if rels == [] then st
    else ImageStep(ImagesFold(st, rels[..|rels| - 1], dir, dirOk), rels[|rels| - 1], dir, dirOk)
  }

  /** What `_extract_images` records and returns. */
  function ImagesOf(rec: ResultRecord, doc: WordDoc, dir: Path, dirOk: bool): ImageState {
    match doc.relsError
    case Some(e) => ImageState(rec.WithWarning("Image extraction error: " + e), 0)
    case None => ImagesFold(ImageState(rec, 0), doc.rels, dir, dirOk)
  }

  // ---------------------------------------------------------------------------------------
  // extract

  /** Whether the text file is written: `text_content.strip()` is non-empty. */
  predicate HasText(doc: WordDoc) {
    Strip(TextOf(doc)) != ""
  }

  /** Whether `extract` gets past opening the document. */
  predicate Opens(docxAvailable: bool, env: WordEnv) {
    docxAvailable && env.importError.None? && env.outputDirOk && env.document.Ok?
  }

  /** Whether writing the text file raises. */
  predicate TextWriteFails(doc: WordDoc, env: WordEnv) {
    HasText(doc) && env.textWriteError.Some?
  }

  /** Whether `extract` reaches `check_interrupted`. */
  predicate ReachesCheck(docxAvailable: bool, env: WordEnv) {
    Opens(docxAvailable, env) && !TextWriteFails(env.document.value, env)
  }

  /** The record after the text step, when the text file is not the cause of a failure. */
  function AfterText(rec: ResultRecord, doc: WordDoc, textOutput: Path): ResultRecord {
    var r := TextRecord(rec, doc);
    if HasText(doc) then r.WithFile(textOutput)
    else r.WithWarning("No text content found in document")
  }

  /** What `extract` does once the document is open; `safe` is the sanitized file name. */
  function ExtractOpened(filepath: Path, outputDir: Path, safe: string, doc: WordDoc, env: WordEnv, interrupted: bool): Outcome {
    var rec := NewRecord(filepath);
    if TextWriteFails(doc, env) then
      Returned(TextRecord(rec, doc).WithError(FailedMessage(filepath, env.textWriteError.value)))
    else if interrupted then Raised(InterruptedMessage)
    else
      var st := ImagesOf(AfterText(rec, doc, TextOutput(outputDir, safe)), doc, ImagesDir(outputDir, safe), env.imagesDirOk);
      Returned(Conclude(st.rec, st.count, NoData))
  }

  /**
   * `extract(filepath, output_dir)`, where `safe` is the sanitized name of the file and
   * `interrupted` the flag `check_interrupted` reads.
   */
  function WordExtract(docxAvailable: bool, filepath: Path, outputDir: Path, safe: string, env: WordEnv, interrupted: bool): Outcome {
    var rec := NewRecord(filepath);
    if !docxAvailable then Returned(rec.WithError(NotInstalled))
    else if env.importError.Some? then Returned(rec.WithError(FailedMessage(filepath, env.importError.value)))
    else if !env.outputDirOk then Returned(rec.WithError(OutputDirError(outputDir)))
    else if env.document.Err? then Returned(rec.WithError(FailedMessage(filepath, env.document.message)))
    else ExtractOpened(filepath, outputDir, safe, env.document.value, env, interrupted)
  }

  /** The sub-step messages `extract` reports once the document is open. */
  function OpenedSubsteps(doc: WordDoc, env: WordEnv, interrupted: bool): seq<string> {
    if TextWriteFails(doc, env) || interrupted then ["Extracting text content"]
    else ["Extracting text content", "Extracting embedded images"]
  }

  /** The sub-step messages `extract` reports. */
  function Substeps(docxAvailable: bool, env: WordEnv, interrupted: bool): seq<string> {
    if !Opens(docxAvailable, env) then [] else OpenedSubsteps(env.document.value, env, interrupted)
  }

  // ---------------------------------------------------------------------------------------
  // Properties of the text

  predicate NoBlankPart(parts: seq<string>) {
    forall k :: 0 <= k < |parts| ==> !IsBlank(parts[k])
  }

  /** A part that starts with a non-space character is not blank. */
  lemma NonSpaceStartNotBlank(t: string, rest: string)
    requires t != [] && !IsSpace(t[0])
    ensures !IsBlank(t + rest)
  {
    assert (t + rest)[0] == t[0];
  }

  /** One paragraph contributes no part at all, or only parts with visible text. */
  lemma ParagraphPartsSpec(p: Paragraph)
    ensures NoBlankPart(ParagraphParts(p))
    ensures ParagraphParts(p) == [] <==> IsBlank(p.text)
  {
    var t := Strip(p.text);
    StripEmptyIffBlank(p.text);
    StripNonEmptyNotBlank(p.text);
    if t != "" {
      NonSpaceStartNotBlank(t, "\n");
      NonSpaceStartNotBlank(t, "\n\n");
      assert ("\n" + Banner + "\n")[1] == '=';
      assert (Banner + "\n\n")[0] == '=';
    }
  }

  lemma {:induction false} ParagraphsPartsSpec(ps: seq<Paragraph>)
    ensures NoBlankPart(ParagraphsParts(ps))
    ensures ParagraphsParts(ps) == [] <==> forall i :: 0 <= i < |ps| ==> IsBlank(ps[i].text)
  {
    if ps != [] {
      var init := ps[..|ps| - 1];
      ParagraphsPartsSpec(init);
      ParagraphPartsSpec(ps[|ps| - 1]);
      assert forall i :: 0 <= i < |init| ==> init[i] == ps[i];
    }
  }

  /**
   * The text file is written exactly when some paragraph has visible text or the document has
   * a table (the TABLES banner alone is visible text).
   */
  lemma TextBlankIff(doc: WordDoc)
    requires doc.textError.None?
    ensures HasText(doc) <==> doc.tables != [] || exists i :: 0 <= i < |doc.paragraphs| && !IsBlank(doc.paragraphs[i].text)
  {
    var parts := TextParts(doc);
    var text := Concat(parts);
    StripEmptyIffBlank(text);
    ConcatBlank(parts);
    ParagraphsPartsSpec(doc.paragraphs);
    var pp := ParagraphsParts(doc.paragraphs);
    if doc.tables != [] {
      assert parts[|pp| + 1] == "TABLES\n";
      assert parts[|pp| + 1][0] == 'T';
    } else {
      assert parts == pp;
    }
  }

  /** `' | '.join(xs)` is empty exactly for no item or a single empty item. */
  lemma JoinEmpty(xs: seq<string>)
    ensures Join(" | ", xs) == "" <==> |xs| == 0 || (|xs| == 1 && xs[0] == "")
  {
    if |xs| >= 2 {
      assert |Join(" | ", xs)| >= 3;
    }
  }

  /** A table row is left out exactly when it has no cell, or one cell holding only whitespace. */
  lemma RowOmittedIff(cells: seq<string>)
    ensures RowParts(cells) == [] <==> |cells| == 0 || (|cells| == 1 && IsBlank(cells[0]))
  {
    var xs := seq(|cells|, i requires 0 <= i < |cells| => Strip(cells[i]));
    JoinEmpty(xs);
    if |cells| == 1 {
      StripEmptyIffBlank(cells[0]);
    }
  }

  // ---------------------------------------------------------------------------------------
  // Properties of the images

  /** Relationships that point at an image. */
  function ImageRels(rels: seq<Relationship>): nat {
    if rels == [] then 0 else ImageRels(rels[..|rels| - 1]) + (if IsImageRel(rels[|rels| - 1]) then 1 else 0)
  }

  /** Image relationships whose bytes can be read. */
  function ReadableImages(rels: seq<Relationship>): nat {
    if rels == [] then 0
    else ReadableImages(rels[..|rels| - 1]) + (if IsImageRel(rels[|rels| - 1]) && rels[|rels| - 1].blobOk then 1 else 0)
  }

  /** Image relationships whose bytes can be read and written out. */
  function WrittenImages(rels: seq<Relationship>): nat {
    if rels == [] then 0
    else
      var rel := rels[|rels| - 1];
      WrittenImages(rels[..|rels| - 1]) + (if IsImageRel(rel) && rel.blobOk && rel.writeOk then 1 else 0)
  }

  /**
   * The image loop adds no error, keeps `success` and the files already recorded. With the
   * images directory in place it counts every readable image (a failed write still consumes its
   * number) and records a file for every written one; without it, it counts nothing and warns
   * once per image.
   */
  lemma {:induction false} ImagesFoldCounts(st: ImageState, rels: seq<Relationship>, dir: Path, dirOk: bool)
    ensures var f := ImagesFold(st, rels, dir, dirOk);
      && f.rec.errors == st.rec.errors && f.rec.success == st.rec.success && f.rec.sourceFile == st.rec.sourceFile
      && f.rec.metadata == st.rec.metadata
      && |st.rec.extractedFiles| <= |f.rec.extractedFiles|
      && f.rec.extractedFiles[..|st.rec.extractedFiles|] == st.rec.extractedFiles
      && (dirOk ==>
            && f.count == st.count + ReadableImages(rels)
            && |f.rec.extractedFiles| == |st.rec.extractedFiles| + WrittenImages(rels)
            && f.rec.warnings == st.rec.warnings)
      && (!dirOk ==>
            && f.count == st.count
            && f.rec.extractedFiles == st.rec.extractedFiles
            && |f.rec.warnings| == |st.rec.warnings| + ImageRels(rels))
  {
    if rels != [] {
      var init, rel := rels[..|rels| - 1], rels[|rels| - 1];
      ImagesFoldCounts(st, init, dir, dirOk);
      var g := ImagesFold(st, init, dir, dirOk);
      assert ImagesFold(st, rels, dir, dirOk) == ImageStep(g, rel, dir, dirOk);
      ImageStepSpec(g, rel, dir, dirOk);
      var k := |st.rec.extractedFiles|;
      assert (g.rec.extractedFiles + [Child(dir, "x")])[..k] == g.rec.extractedFiles[..k];
    }
  }

  /** One relationship: what it adds to the count, the files and the warnings. */
  lemma ImageStepSpec(g: ImageState, rel: Relationship, dir: Path, dirOk: bool)
    ensures var f := ImageStep(g, rel, dir, dirOk);
      && f.rec.errors == g.rec.errors && f.rec.success == g.rec.success && f.rec.sourceFile == g.rec.sourceFile
      && f.rec.metadata == g.rec.metadata
      && (dirOk ==>
            && f.count == g.count + (if IsImageRel(rel) && rel.blobOk then 1 else 0)
            && f.rec.extractedFiles == g.rec.extractedFiles
                 + (if IsImageRel(rel) && rel.blobOk && rel.writeOk then [Child(dir, ImageName(f.count, ImageExtension(rel.contentType)))] else [])
            && f.rec.warnings == g.rec.warnings)
      && (!dirOk ==>
            && f.count == g.count
            && f.rec.extractedFiles == g.rec.extractedFiles
            && f.rec.warnings == g.rec.warnings + (if IsImageRel(rel) then [ImagesDirWarning(dir)] else []))
  {
  }

  /** The number in an image name can be read back: different numbers give different names. */
  lemma ImageNameInjective(n1: nat, e1: string, n2: nat, e2: string)
    requires ImageName(n1, e1) == ImageName(n2, e2)
    ensures n1 == n2
  {
    var d1 := NatToString(n1);
    var d2 := NatToString(n2);
    var s := ImageName(n1, e1);
    assert s == "image" + d1 + "." + e1;
    assert s == "image" + d2 + "." + e2;
    assert s[5..] == d1 + "." + e1;
    assert s[5..] == d2 + "." + e2;
    assert d1 + "." + e1 == d1 + ("." + e1) && d2 + "." + e2 == d2 + ("." + e2);
    DigitsThenStop(d1, "." + e1, d2, "." + e2);
    DigitsValueOfNatToString(n1);
    DigitsValueOfNatToString(n2);
  }

  /** The file of the `n`-th image, for some extension. */
  ghost predicate NumberedImage(f: Path, dir: Path, lo: nat, hi: nat) {
    exists n: nat, e: string :: lo < n <= hi && f == Child(dir, ImageName(n, e))
  }

  /**
   * Every image file the loop records is named after a number it handed out, and no two of
   * them share a path: a later image never overwrites an earlier one.
   */
  lemma {:induction false} ImageFilesDistinct(st: ImageState, rels: seq<Relationship>, dir: Path)
    ensures var f := ImagesFold(st, rels, dir, true);
      var k := |st.rec.extractedFiles|;
      && (forall i :: k <= i < |f.rec.extractedFiles| ==> NumberedImage(f.rec.extractedFiles[i], dir, st.count, f.count))
      && (forall i, j :: k <= i < j < |f.rec.extractedFiles| ==> f.rec.extractedFiles[i] != f.rec.extractedFiles[j])
  {
    ImagesFoldCounts(st, rels, dir, true);
    if rels != [] {
      var init := rels[..|rels| - 1];
      var rel := rels[|rels| - 1];
      ImageFilesDistinct(st, init, dir);
      ImagesFoldCounts(st, init, dir, true);
      var g := ImagesFold(st, init, dir, true);
      var f := ImagesFold(st, rels, dir, true);
      var k := |st.rec.extractedFiles|;
      if IsImageRel(rel) && rel.blobOk && rel.writeOk {
        var n := g.count + 1;
        var e := ImageExtension(rel.contentType);
        var last := Child(dir, ImageName(n, e));
        assert f.rec.extractedFiles == g.rec.extractedFiles + [last];
        assert NumberedImage(last, dir, st.count, f.count);
        forall i | k <= i < |g.rec.extractedFiles|
          ensures g.rec.extractedFiles[i] != last
        {
          var m: nat, e' :| st.count < m <= g.count && g.rec.extractedFiles[i] == Child(dir, ImageName(m, e'));
          if g.rec.extractedFiles[i] == last {
            var a := ImageName(m, e');
            var b := ImageName(n, e);
            assert a != "" && b != "";
            assert dir.parts + [a] == dir.parts + [b];
            assert a == (dir.parts + [a])[|dir.parts|];
            ImageNameInjective(m, e', n, e);
          }
        }
      }
    }
  }

  // ---------------------------------------------------------------------------------------
  // Properties of `extract`

  /**
   * A returned result names the file, is successful exactly when it holds no error, and holds
   * at most one error: every error ends the extraction.
   */
  lemma ExtractConsistent(docxAvailable: bool, filepath: Path, outputDir: Path, safe: string, env: WordEnv, interrupted: bool)
    ensures var o := WordExtract(docxAvailable, filepath, outputDir, safe, env, interrupted);
      o.Returned? ==> o.result.sourceFile == filepath && o.result.Consistent() && |o.result.errors| <= 1
  {
    if Opens(docxAvailable, env) {
      OpenedConsistent(filepath, outputDir, safe, env.document.value, env, interrupted);
    }
  }

  lemma OpenedConsistent(filepath: Path, outputDir: Path, safe: string, doc: WordDoc, env: WordEnv, interrupted: bool)
    ensures var o := ExtractOpened(filepath, outputDir, safe, doc, env, interrupted);
      o.Returned? ==> o.result.sourceFile == filepath && o.result.Consistent() && |o.result.errors| <= 1
  {
    if !TextWriteFails(doc, env) && !interrupted {
      var rec := AfterText(NewRecord(filepath), doc, TextOutput(outputDir, safe));
      assert rec.sourceFile == filepath && rec.success && rec.errors == [];
      var st := ImagesOf(rec, doc, ImagesDir(outputDir, safe), env.imagesDirOk);
      if doc.relsError.None? {
        ImagesFoldCounts(ImageState(rec, 0), doc.rels, ImagesDir(outputDir, safe), env.imagesDirOk);
      }
      assert st.rec.sourceFile == filepath && st.rec.success && st.rec.errors == [];
    }
  }

  /** ExtractionInterrupted escapes exactly when the flag is set and the interrupt check is reached. */
  lemma InterruptIff(docxAvailable: bool, filepath: Path, outputDir: Path, safe: string, env: WordEnv, interrupted: bool)
    ensures WordExtract(docxAvailable, filepath, outputDir, safe, env, interrupted).Raised? <==> ReachesCheck(docxAvailable, env) && interrupted
    ensures WordExtract(docxAvailable, filepath, outputDir, safe, env, interrupted).Raised? ==>
      WordExtract(docxAvailable, filepath, outputDir, safe, env, interrupted).message == InterruptedMessage
  {
  }

  /**
   * A result that holds no error has run to the end: it is successful even when nothing was
   * extracted, and then its last warning says so.
   */
  lemma NoErrorVerdict(docxAvailable: bool, filepath: Path, outputDir: Path, safe: string, env: WordEnv, interrupted: bool)
    ensures var o := WordExtract(docxAvailable, filepath, outputDir, safe, env, interrupted);
      o.Returned? && o.result.errors == [] ==>
        && o.result.success
        && (o.result.extractedFiles == [] ==>
              o.result.warnings != [] && o.result.warnings[|o.result.warnings| - 1] == NoData)
  {
    ExtractConsistent(docxAvailable, filepath, outputDir, safe, env, interrupted);
  }

  /** The image files live one level below the output directory, in the images directory. */
  lemma ImageFileDepth(outputDir: Path, safe: string, n: nat, e: string)
    ensures Child(ImagesDir(outputDir, safe), ImageName(n, e)).parts == outputDir.parts + [safe + "_images", ImageName(n, e)]
  {
    assert safe + "_images" != "";
    assert ImageName(n, e) != "";
  }

  /**
   * Once the document is open and no interrupt intervenes, a result without error lists the
   * text file exactly when the document has visible text, and then lists it first.
   */
  lemma TextFileIff(docxAvailable: bool, filepath: Path, outputDir: Path, safe: string, env: WordEnv, interrupted: bool)
    requires Opens(docxAvailable, env) && !interrupted
    ensures var o := WordExtract(docxAvailable, filepath, outputDir, safe, env, interrupted);
      var out := TextOutput(outputDir, safe);
      && o.Returned?
      && (o.result.errors == [] ==> (out in o.result.extractedFiles <==> HasText(env.document.value)))
      && (o.result.errors == [] && HasText(env.document.value) ==> o.result.extractedFiles[0] == out)
  {
    var doc := env.document.value;
    var out := TextOutput(outputDir, safe);
    if !TextWriteFails(doc, env) {
      var rec := AfterText(NewRecord(filepath), doc, out);
      assert rec.extractedFiles == if HasText(doc) then [out] else [];
      if doc.relsError.None? {
        var st := ImageState(rec, 0);
        ImagesFoldCounts(st, doc.rels, ImagesDir(outputDir, safe), env.imagesDirOk);
        if env.imagesDirOk {
          ImagesAvoidText(rec, doc.rels, outputDir, safe);
        }
      }
    }
  }

  /** No image file is the text file: the images live one directory further down. */
  lemma ImagesAvoidText(rec: ResultRecord, rels: seq<Relationship>, outputDir: Path, safe: string)
    ensures var f := ImagesFold(ImageState(rec, 0), rels, ImagesDir(outputDir, safe), true);
      TextOutput(outputDir, safe) in f.rec.extractedFiles <==> TextOutput(outputDir, safe) in rec.extractedFiles
  {
    var out := TextOutput(outputDir, safe);
    var dir := ImagesDir(outputDir, safe);
    var st := ImageState(rec, 0);
    assert |out.parts| == |outputDir.parts| + 1 by {
      assert safe + ".txt" != "";
    }
    ImagesFoldCounts(st, rels, dir, true);
    ImageFilesDistinct(st, rels, dir);
    var f := ImagesFold(st, rels, dir, true);
    forall i | |rec.extractedFiles| <= i < |f.rec.extractedFiles|
      ensures f.rec.extractedFiles[i] != out
    {
      var n: nat, e :| 0 < n <= f.count && f.rec.extractedFiles[i] == Child(dir, ImageName(n, e));
      ImageFileDepth(outputDir, safe, n, e);
    }
    var files := f.rec.extractedFiles;
    var k := |rec.extractedFiles|;
    assert files == files[..k] + files[k..];
    assert out !in files[k..];
  }

  // ---------------------------------------------------------------------------------------
  // The extractor object

  class WordExtractor {
    const docxAvailable: bool
    /** The BaseExtractor part: sub-step callback and interrupt flag. */
    const base: ExtractorBase

    /** `WordExtractor(...)`: `docxAvailable` is whether `import docx` succeeds. */
    constructor (docxAvailable: bool)
      ensures this.docxAvailable == docxAvailable
      ensures fresh(base) && base.Valid() && !base.interrupted && !base.hasSubstepCallback && base.substeps == []
    {
      this.docxAvailable := docxAvailable;
      base := new ExtractorBase();
    }

    /** `_extract_text`, writing into `result`. */
    method ExtractText(doc: WordDoc, result: ExtractionResult) returns (text: string)
      modifies result
      ensures text == TextOf(doc)
      ensures result.Snapshot() == TextRecord(old(result.Snapshot()), doc)
    {
      if doc.textError.Some? {
        result.AddWarning("Text extraction error: " + doc.textError.value);
        return "";
      }
      var parts := ParagraphsText(doc.paragraphs);
      if |doc.tables| > 0 {
        parts := parts + TablesHeader();
        var tableParts := TablesText(doc.tables);
        parts := parts + tableParts;
      }
      assert parts == TextParts(doc);
      result.SetMetadata("paragraph_count", Count(|doc.paragraphs|));
      result.SetMetadata("table_count", Count(|doc.tables|));
      text := Concat(parts);
    }

    /** The paragraph loop of `_extract_text`. */
    method ParagraphsText(ps: seq<Paragraph>) returns (parts: seq<string>)
      ensures parts == ParagraphsParts(ps)
    {
      parts := [];
      for i := 0 to |ps|
        invariant parts == ParagraphsParts(ps[..i])
      {
        assert ps[..i + 1][..i] == ps[..i];
        var t := Strip(ps[i].text);
        if t != "" {
          if StartsWith(ps[i].styleName, "Heading") {
            parts := parts + HeadingParts(t);
          } else {
            parts := parts + [t + "\n\n"];
          }
        }
      }
      assert ps[..|ps|] == ps;
    }

    /** The table loop of `_extract_text`: the parts every table contributes. */
    method TablesText(tables: seq<Table>) returns (parts: seq<string>)
      ensures parts == TablesParts(tables)
    {
      parts := [];
      for t := 0 to |tables|
        invariant parts == TablesParts(tables[..t])
      {
        TablesPartsStep(tables, t);
        parts := parts + [TableHeading(t + 1)];
        var rowParts := RowsText(tables[t]);
        parts := parts + rowParts;
        parts := parts + ["\n"];
      }
      assert tables[..|tables|] == tables;
    }

    /** The row loop of one table: the non-empty rows, each on its own line. */
    method RowsText(rows: Table) returns (parts: seq<string>)
      ensures parts == RowsParts(rows)
    {
      parts := [];
      for r := 0 to |rows|
        invariant parts == RowsParts(rows[..r])
      {
        assert rows[..r + 1][..r] == rows[..r];
        var rowText := RowText(rows[r]);
        if rowText != "" {
          parts := parts + [rowText + "\n"];
        }
      }
      assert rows[..|rows|] == rows;
    }

    /** `_extract_images`, writing into `result`; `dirOk` is what `ensure_output_dir(dir)` answers. */
    method ExtractImages(doc: WordDoc, dir: Path, dirOk: bool, result: ExtractionResult) returns (count: nat)
      modifies result
      ensures ImageState(result.Snapshot(), count) == ImagesOf(old(result.Snapshot()), doc, dir, dirOk)
    {
      if doc.relsError.Some? {
        result.AddWarning("Image extraction error: " + doc.relsError.value);
        return 0;
      }
      count := 0;
      var rels := doc.rels;
      for k := 0 to |rels|
        invariant ImageState(result.Snapshot(), count) == ImagesFold(ImageState(old(result.Snapshot()), 0), rels[..k], dir, dirOk)
      {
        assert rels[..k + 1][..k] == rels[..k];
        var rel := rels[k];
        if Contains(rel.targetRef, "image") {
          if !dirOk {
            result.AddWarning(ImagesDirWarning(dir));
          } else if rel.blobOk {
            var ext := ImageExtension(rel.contentType);
            count := count + 1;
            var imgPath := Child(dir, ImageName(count, ext));
            if rel.writeOk {
              result.AddFile(imgPath);
            }
          }
        }
      }
      assert rels[..|rels|] == rels;
    }

    /** `extract(filepath, output_dir)`; `Raised` stands for ExtractionInterrupted propagating. */
    method Extract(filepath: Path, outputDir: Path, env: WordEnv) returns (outcome: Outcome)
      requires base.Valid()
      modifies base`substeps, base`ops
      ensures base.Valid()
      ensures outcome == WordExtract(docxAvailable, filepath, outputDir, Sanitize(Name(filepath), DefaultMaxLength), env, base.interrupted)
      ensures base.substeps == old(base.substeps) + (if base.hasSubstepCallback then Substeps(docxAvailable, env, base.interrupted) else [])
    {
      var result := new ExtractionResult(filepath, true);
      if !docxAvailable {
        result.AddError(NotInstalled);
        return Returned(result.Snapshot());
      }
      if env.importError.Some? {
        result.AddError(FailedMessage(filepath, env.importError.value));
        return Returned(result.Snapshot());
      }
      if !env.outputDirOk {
        result.AddError(OutputDirError(outputDir));
        return Returned(result.Snapshot());
      }
      var fileSafeName := SanitizeFilename(Name(filepath), DefaultMaxLength);
      if env.document.Err? {
        result.AddError(FailedMessage(filepath, env.document.message));
        return Returned(result.Snapshot());
      }
      outcome := ExtractDocument(filepath, outputDir, env.document.value, env, fileSafeName, result);
    }

    /**
     * The text step of `extract`: extract the text, then write the text file when the text is
     * not blank; `failed` says that writing it raised.
     */
    method TextStep(filepath: Path, doc: WordDoc, env: WordEnv, textOutput: Path, result: ExtractionResult)
      returns (failed: bool)
      modifies result
      ensures failed == TextWriteFails(doc, env)
      ensures failed ==>
        result.Snapshot() == TextRecord(old(result.Snapshot()), doc).WithError(FailedMessage(filepath, env.textWriteError.value))
      ensures !failed ==> result.Snapshot() == AfterText(old(result.Snapshot()), doc, textOutput)
    {
      var textContent := ExtractText(doc, result);
      failed := false;
      if Strip(textContent) != "" {
        if env.textWriteError.Some? {
          result.AddError(FailedMessage(filepath, env.textWriteError.value));
          return true;
        }
        result.AddFile(textOutput);
      } else {
        result.AddWarning("No text content found in document");
      }
    }

    /** `extract` after the text step: the interrupt check, the image step and the verdict. */
    method ImagesStep(doc: WordDoc, imagesDir: Path, dirOk: bool, result: ExtractionResult) returns (outcome: Outcome)
      requires base.Valid()
      modifies result, base`substeps, base`ops
      ensures base.Valid()
      ensures base.interrupted ==> outcome == Raised(InterruptedMessage)
      ensures !base.interrupted ==> var st := ImagesOf(old(result.Snapshot()), doc, imagesDir, dirOk);
        outcome == Returned(Conclude(st.rec, st.count, NoData))
      ensures base.substeps == old(base.substeps) + (if base.hasSubstepCallback && !base.interrupted then ["Extracting embedded images"] else [])
    {
      var raised := base.CheckInterrupted();
      if raised {
        return Raised(InterruptedMessage);
      }
      base.ReportSubstep("Extracting embedded images");
      var imageCount := ExtractImages(doc, imagesDir, dirOk, result);
      if imageCount > 0 {
        result.SetMetadata("images_extracted", Count(imageCount));
      }
      if |result.extractedFiles| > 0 {
        result.MarkSuccess();
      } else {
        result.AddWarning(NoData);
      }
      return Returned(result.Snapshot());
    }

    /** The body of `extract` from the opened document on. */
    method ExtractDocument(filepath: Path, outputDir: Path, doc: WordDoc, env: WordEnv, fileSafeName: string,
                           result: ExtractionResult) returns (outcome: Outcome)
      requires base.Valid()
      requires result.Snapshot() == NewRecord(filepath)
      modifies result, base`substeps, base`ops
      ensures base.Valid()
      ensures outcome == ExtractOpened(filepath, outputDir, fileSafeName, doc, env, base.interrupted)
      ensures base.substeps == old(base.substeps) + (if base.hasSubstepCallback then OpenedSubsteps(doc, env, base.interrupted) else [])
    {
      var imagesDir := ImagesDir(outputDir, fileSafeName);
      base.ReportSubstep("Extracting text content");
      var textOutput := TextOutput(outputDir, fileSafeName);
      var failed := TextStep(filepath, doc, env, textOutput, result);
      if failed {
        return Returned(result.Snapshot());
      }
      outcome := ImagesStep(doc, imagesDir, env.imagesDirOk, result);
    }
  }
}
