/**
 * PowerPointExtractor: writes the text of a .pptx presentation (its shapes' text and the
 * speaker notes, slide by slide) to one text file and, when asked to, every picture to a file
 * named after its slide and its place on the slide, counting the charts it meets.
 *
 * The python-pptx presentation is given as a value; every call into the file system or a
 * library that can fail is a field of PptxEnv or of the presentation saying how it turns out.
 */
module PowerPointExtraction {
  import opened Wrappers
  import opened Strings
  import opened Paths
  import opened Base

  /** `can_extract`: a `.pptx` suffix in any letter case, and python-pptx importable. */
  predicate CanExtract(pptxAvailable: bool, filepath: Path) {
    Lower(Suffix(Name(filepath))) == ".pptx" && pptxAvailable
  }

  /**
   * What a shape is to `_extract_images`: a picture (its extension, whether its bytes can be
   * read and whether writing them out succeeds), a chart, or anything else.
   */
  datatype ShapeKind = Picture(ext: string, blobOk: bool, writeOk: bool) | Chart | Plain

  /** A shape: its `text` attribute, when it has one, and its kind. */
  datatype Shape = Shape(text: Option<string>, kind: ShapeKind)

  /**
   * A slide: its shapes, the text of its notes when it has a notes slide with a text frame,
   * and the exception, if any, that `_extract_images` meets when it loads the slide or
   * enumerates its shapes (a dangling relationship, a malformed shape tree), before any of its
   * shapes is visited.
   */
  datatype Slide = Slide(shapes: seq<Shape>, notes: Option<string>, shapesError: Option<string>)

  /** An opened presentation; `textError` is the exception, if any, raised while reading its text. */
  datatype Deck = Deck(slides: seq<Slide>, textError: Option<string>)

  /**
   * How the outside world answers: whether PIL imports (`importError`), whether the output
   * directory can be created, what `Presentation(filepath)` gives, whether the text file can be
   * written and whether the images directory can be created.
   */
  datatype PptxEnv = PptxEnv(
    importError: Option<string>,
    outputDirOk: bool,
    deck: Result<Deck>,
    textWriteError: Option<string>,
    imagesDirOk: bool)

  const NotInstalled: string := "python-pptx not installed - cannot process PowerPoint files"
  const NoText: string := "No text content found in presentation"
  const NoData: string := "No data extracted from PowerPoint"
  const ChartsKey: string := "charts_found"

  // ---------------------------------------------------------------------------------------
  // _extract_text

  /** A shape contributes its text, as it is, when the text is not blank. */
  function ShapeParts(shape: Shape): seq<string> {
    if shape.text.Some? && Strip(shape.text.value) != "" then [shape.text.value + "\n"] else []
  }

  function ShapesParts(shapes: seq<Shape>): seq<string> {
    if shapes == [] then [] else ShapesParts(shapes[..|shapes| - 1]) + ShapeParts(shapes[|shapes| - 1])
  }

  /** The notes contribute their stripped text under a NOTES line, when it is not empty. */
  function NotesParts(notes: Option<string>): seq<string> {
    if notes.Some? && Strip(notes.value) != "" then ["\n--- NOTES ---\n", Strip(notes.value) + "\n"] else []
  }

  /** The parts of slide number `n` (1-based). */
  function SlideParts(n: nat, slide: Slide): seq<string> {
    ["\n" + Banner + "\n", "SLIDE " + NatToString(n) + "\n", Banner + "\n\n"]
    + ShapesParts(slide.shapes) + NotesParts(slide.notes) + ["\n"]
  }

  function SlidesParts(slides: seq<Slide>): seq<string> {
    if slides == [] then [] else SlidesParts(slides[..|slides| - 1]) + SlideParts(|slides|, slides[|slides| - 1])
  }

  /** The title block that opens the text. */
  function DeckHeader(n: nat): seq<string> {
    ["PowerPoint Presentation\n", "Total Slides: " + NatToString(n) + "\n", Banner + "\n\n"]
  }

  function TextParts(deck: Deck): seq<string> {
    DeckHeader(|deck.slides|) + SlidesParts(deck.slides)
  }

  /** What `_extract_text` returns. */
  function TextOf(deck: Deck): string {
    if deck.textError.Some? then "" else Concat(TextParts(deck))
  }

  /** What `_extract_text` records: a warning when reading the text raised. */
  function TextRecord(rec: ResultRecord, deck: Deck): ResultRecord {
    match deck.textError
    case Some(e) => rec.WithWarning("Text extraction error: " + e)
    case None => rec
  }

  // ---------------------------------------------------------------------------------------
  // _extract_images

  /** `slide{s}_shape{k}.{ext}`, both numbers 1-based. */
  function SlideImageName(slide: nat, shape: nat, ext: string): string {
    "slide" + NatToString(slide) + "_shape" + NatToString(shape) + "." + ext
  }

  /** The extension a picture is saved under: its own, or png when it reports none. */
  function PictureExtension(ext: string): string {
    if ext == "" then "png" else ext
  }

  /**
   * `metadata.setdefault('charts_found', 0)` followed by `metadata['charts_found'] += 1`; a
   * value that is not a number makes the increment raise, which the shape's handler swallows.
   */
  function ChartStep(rec: ResultRecord): ResultRecord {
    match Lookup(rec.metadata, ChartsKey)
    case None => rec.WithMeta(ChartsKey, Count(1))
    case Some(v) => if v.Count? then rec.WithMeta(ChartsKey, Count(v.n + 1)) else rec
  }

  /** The result record and the image counter while the shapes are visited. */
  datatype ShapeRun = ShapeRun(rec: ResultRecord, count: nat)

  /** One shape of the loop in `_extract_images`: shape `k` of slide `s`. */
  function ShapeStep(st: ShapeRun, dir: Path, dirOk: bool, s: nat, k: nat, shape: Shape): ShapeRun {
    match shape.kind
    case Picture(ext, blobOk, writeOk) =>
      if !dirOk then st.(rec := st.rec.WithWarning(ImagesDirWarning(dir)))
      else if !blobOk then st
      else
        var path := Child(dir, SlideImageName(s, k, PictureExtension(ext)));
        ShapeRun(if writeOk then st.rec.WithFile(path) else st.rec, st.count + 1)
    case Chart => st.(rec := ChartStep(st.rec))
    case Plain => st
  }

  /** The inner loop over the shapes of slide `s`. */
  function ShapesFold(st: ShapeRun, dir: Path, dirOk: bool, s: nat, shapes: seq<Shape>): ShapeRun {
    if shapes == [] then st
    else ShapeStep(ShapesFold(st, dir, dirOk, s, shapes[..|shapes| - 1]), dir, dirOk, s, |shapes|, shapes[|shapes| - 1])
  }

  /** What `_extract_images` records and returns, as the outer loop over the slides. */
  function SlidesFold(st: ShapeRun, dir: Path, dirOk: bool, slides: seq<Slide>): ShapeRun {
    if slides == [] then st
    else ShapesFold(SlidesFold(st, dir, dirOk, slides[..|slides| - 1]), dir, dirOk, |slides|, slides[|slides| - 1].shapes)
  }

  /**
   * How many slides `_extract_images` gets through: every slide before the first whose shapes
   * cannot be enumerated.
   */
  function Reached(slides: seq<Slide>): (n: nat)
    ensures n <= |slides|
    ensures forall i :: 0 <= i < n ==> slides[i].shapesError.None?
    ensures n < |slides| ==> slides[n].shapesError.Some?
  {
    if slides == [] || slides[0].shapesError.Some? then 0
    else
      var m := Reached(slides[1..]);
      assert forall i :: 1 <= i <= m ==> slides[i] == slides[1..][i - 1];
      1 + m
  }

  /**
   * What `_extract_images` records and returns: the slides it gets through are visited in
   * order; when enumerating the next one raises, the outer handler adds a warning and 0 is
   * returned, while the files and chart counts of the earlier slides stay.
   */
  function ImagesOf(rec: ResultRecord, deck: Deck, dir: Path, dirOk: bool): (ResultRecord, nat) {
    var n := Reached(deck.slides);
    var st := SlidesFold(ShapeRun(rec, 0), dir, dirOk, deck.slides[..n]);
    if n < |deck.slides| then (st.rec.WithWarning(ImageErrorWarning(deck.slides[n].shapesError.value)), 0)
    else (st.rec, st.count)
  }

  function ImageErrorWarning(e: string): string {
    "Image extraction error: " + e
  }

  // ---------------------------------------------------------------------------------------
  // extract

  /** Whether the text file is written: `text_content.strip()` is non-empty. */
  predicate HasText(deck: Deck) {
    Strip(TextOf(deck)) != ""
  }

  /** Whether `extract` gets past opening the presentation. */
  predicate Opens(pptxAvailable: bool, env: PptxEnv) {
    pptxAvailable && env.importError.None? && env.outputDirOk && env.deck.Ok?
  }

  /** Whether writing the text file raises. */
  predicate TextWriteFails(deck: Deck, env: PptxEnv) {
    HasText(deck) && env.textWriteError.Some?
  }

  /** The record `extract` starts from once the presentation is open. */
  function OpenedRecord(filepath: Path, deck: Deck): ResultRecord {
    NewRecord(filepath).WithMeta("slide_count", Count(|deck.slides|))
  }

  /** The record after the text step, when the text file is not the cause of a failure. */
  function AfterText(rec: ResultRecord, deck: Deck, textOutput: Path): ResultRecord {
    var r := TextRecord(rec, deck);
    if HasText(deck) then r.WithFile(textOutput) else r.WithWarning(NoText)
  }

  /** What `extract` does once the presentation is open; `safe` is the sanitized file name. */
  function ExtractOpened(extractImages: bool, filepath: Path, outputDir: Path, safe: string, deck: Deck, env: PptxEnv): ResultRecord {
    var rec := OpenedRecord(filepath, deck);
    if TextWriteFails(deck, env) then
      TextRecord(rec, deck).WithError(FailedMessage(filepath, env.textWriteError.value))
    else
      var r := AfterText(rec, deck, TextOutput(outputDir, safe));
      if extractImages then
        var im := ImagesOf(r, deck, ImagesDir(outputDir, safe), env.imagesDirOk);
        Conclude(im.0, im.1, NoData)
      else Conclude(r, 0, NoData)
  }

  /** `extract(filepath, output_dir)`, where `safe` is the sanitized name of the file. */
  function PptxExtract(pptxAvailable: bool, extractImages: bool, filepath: Path, outputDir: Path, safe: string, env: PptxEnv): ResultRecord {
    var rec := NewRecord(filepath);
    if !pptxAvailable then rec.WithError(NotInstalled)
    else if env.importError.Some? then rec.WithError(FailedMessage(filepath, env.importError.value))
    else if !env.outputDirOk then rec.WithError(OutputDirError(outputDir))
    else match env.deck
      case Err(e) => rec.WithError(FailedMessage(filepath, e))
      case Ok(deck) => ExtractOpened(extractImages, filepath, outputDir, safe, deck, env)
  }

  // ---------------------------------------------------------------------------------------
  // Properties of the text

  /**
   * The title block is visible text, so the text file is written exactly when reading the
   * text did not raise, even for a presentation without slides.
   */
  lemma TextIff(deck: Deck)
    ensures HasText(deck) <==> deck.textError.None?
  {
    if deck.textError.None? {
      var parts := TextParts(deck);
      StripEmptyIffBlank(Concat(parts));
      ConcatBlank(parts);
      assert parts[0][0] == 'P';
    }
  }

  /** A shape contributes a line exactly when its text is not blank; the line is not blank either. */
  lemma ShapePartsSpec(shape: Shape)
    ensures ShapeParts(shape) != [] <==> shape.text.Some? && !IsBlank(shape.text.value)
    ensures ShapeParts(shape) != [] ==> !IsBlank(ShapeParts(shape)[0])
  {
    if shape.text.Some? {
      var t := shape.text.value;
      StripEmptyIffBlank(t);
      if !IsBlank(t) {
        BlankAppend(t, "\n");
      }
    }
  }

  /** The notes are written exactly when they hold visible text, and then under the NOTES line. */
  lemma NotesPartsSpec(notes: Option<string>)
    ensures NotesParts(notes) != [] <==> notes.Some? && !IsBlank(notes.value)
    ensures NotesParts(notes) != [] ==> Strip(notes.value) != "" && !IsSpace(NotesParts(notes)[1][0])
  {
    if notes.Some? {
      StripEmptyIffBlank(notes.value);
      StripNonEmptyNotBlank(notes.value);
    }
  }

  /** The shapes with visible text, in order. */
  function TextShapes(shapes: seq<Shape>): nat {
    if shapes == [] then 0
    else TextShapes(shapes[..|shapes| - 1]) + (if ShapeParts(shapes[|shapes| - 1]) != [] then 1 else 0)
  }

  /** A slide's text holds one line per shape with visible text, and none of them is blank. */
  lemma {:induction false} ShapesPartsSpec(shapes: seq<Shape>)
    ensures |ShapesParts(shapes)| == TextShapes(shapes)
    ensures forall j :: 0 <= j < |ShapesParts(shapes)| ==> !IsBlank(ShapesParts(shapes)[j])
  {
    if shapes != [] {
      ShapesPartsSpec(shapes[..|shapes| - 1]);
      ShapePartsSpec(shapes[|shapes| - 1]);
    }
  }

  // ---------------------------------------------------------------------------------------
  // Properties of the images and charts

  /** Picture shapes over all slides. */
  function Pictures(slides: seq<Slide>): nat {
    if slides == [] then 0 else Pictures(slides[..|slides| - 1]) + PicturesOn(slides[|slides| - 1].shapes)
  }

  function PicturesOn(shapes: seq<Shape>): nat {
    if shapes == [] then 0
    else PicturesOn(shapes[..|shapes| - 1]) + (if shapes[|shapes| - 1].kind.Picture? then 1 else 0)
  }

  /** Picture shapes whose bytes can be read. */
  function Readable(slides: seq<Slide>): nat {
    if slides == [] then 0 else Readable(slides[..|slides| - 1]) + ReadableOn(slides[|slides| - 1].shapes)
  }

  function ReadableOn(shapes: seq<Shape>): nat {
    if shapes == [] then 0
    else
      var k := shapes[|shapes| - 1].kind;
      ReadableOn(shapes[..|shapes| - 1]) + (if k.Picture? && k.blobOk then 1 else 0)
  }

  /** Picture shapes whose bytes can be read and written out. */
  function Saved(slides: seq<Slide>): nat {
    if slides == [] then 0 else Saved(slides[..|slides| - 1]) + SavedOn(slides[|slides| - 1].shapes)
  }

  function SavedOn(shapes: seq<Shape>): nat {
    if shapes == [] then 0
    else
      var k := shapes[|shapes| - 1].kind;
      SavedOn(shapes[..|shapes| - 1]) + (if k.Picture? && k.blobOk && k.writeOk then 1 else 0)
  }

  /** Chart shapes over all slides. */
  function Charts(slides: seq<Slide>): nat {
    if slides == [] then 0 else Charts(slides[..|slides| - 1]) + ChartsOn(slides[|slides| - 1].shapes)
  }

  function ChartsOn(shapes: seq<Shape>): nat {
    if shapes == [] then 0
    else ChartsOn(shapes[..|shapes| - 1]) + (if shapes[|shapes| - 1].kind.Chart? then 1 else 0)
  }

  /** The file of the picture at a place of some slide up to `hi`, with some extension. */
  ghost predicate PictureFile(f: Path, dir: Path, hi: nat) {
    exists s: nat, k: nat, e: string :: 1 <= s <= hi && f == Child(dir, SlideImageName(s, k, e))
  }

  /** The file of a picture on slide `s`, at a place up to `hi`. */
  ghost predicate PictureFileOn(f: Path, dir: Path, s: nat, hi: nat) {
    exists k: nat, e: string :: 1 <= k <= hi && f == Child(dir, SlideImageName(s, k, e))
  }

  /** The picture name, bracketed from the right. */
  lemma SlideImageNameShape(s: nat, k: nat, e: string)
    ensures SlideImageName(s, k, e) == "slide" + (NatToString(s) + ("_shape" + (NatToString(k) + ("." + e))))
  {
  }

  /** Pictures at two different places never share a path. */
  lemma DistinctPlaces(dir: Path, s1: nat, k1: nat, e1: string, s2: nat, k2: nat, e2: string)
    requires s1 != s2 || k1 != k2
    ensures Child(dir, SlideImageName(s1, k1, e1)) != Child(dir, SlideImageName(s2, k2, e2))
  {
    var a := SlideImageName(s1, k1, e1);
    var b := SlideImageName(s2, k2, e2);
    if Child(dir, a) == Child(dir, b) {
      assert a[0] == 's' && b[0] == 's';
      ChildInjective(dir, a, b);
      SlideImageNameShape(s1, k1, e1);
      SlideImageNameShape(s2, k2, e2);
      TwoNumbersInjective("slide", "_shape", s1, k1, e1, s2, k2, e2);
    }
  }

  /** The part of the record the shape loop leaves alone, metadata aside. */
  predicate Kept(a: ResultRecord, b: ResultRecord) {
    a.sourceFile == b.sourceFile && a.success == b.success && a.errors == b.errors
    && |a.extractedFiles| <= |b.extractedFiles| && b.extractedFiles[..|a.extractedFiles|] == a.extractedFiles
  }

  /**
   * The shapes of one slide. With the images directory in place every readable picture is
   * counted (a failed write still counts) and every written one recorded, under a name for
   * its place, no two alike; without it nothing is counted or recorded and every picture
   * costs a warning.
   */
  lemma {:induction false} ShapesFoldSpec(st: ShapeRun, dir: Path, dirOk: bool, s: nat, shapes: seq<Shape>)
    ensures var f := ShapesFold(st, dir, dirOk, s, shapes);
      var k := |st.rec.extractedFiles|;
      && Kept(st.rec, f.rec)
      && (dirOk ==>
            && f.count == st.count + ReadableOn(shapes)
            && |f.rec.extractedFiles| == k + SavedOn(shapes)
            && f.rec.warnings == st.rec.warnings)
      && (!dirOk ==>
            && f.count == st.count
            && f.rec.extractedFiles == st.rec.extractedFiles
            && |f.rec.warnings| == |st.rec.warnings| + PicturesOn(shapes))
      && (forall j :: k <= j < |f.rec.extractedFiles| ==> PictureFileOn(f.rec.extractedFiles[j], dir, s, |shapes|))
      && (forall a, b :: k <= a < b < |f.rec.extractedFiles| ==> f.rec.extractedFiles[a] != f.rec.extractedFiles[b])
  {
    if shapes != [] {
      var init := shapes[..|shapes| - 1];
      var shape := shapes[|shapes| - 1];
      ShapesFoldSpec(st, dir, dirOk, s, init);
      var g := ShapesFold(st, dir, dirOk, s, init);
      var f := ShapesFold(st, dir, dirOk, s, shapes);
      var k := |st.rec.extractedFiles|;
      forall j | k <= j < |g.rec.extractedFiles|
        ensures PictureFileOn(g.rec.extractedFiles[j], dir, s, |shapes|)
      {
        var i: nat, e :| 1 <= i <= |init| && g.rec.extractedFiles[j] == Child(dir, SlideImageName(s, i, e));
      }
      if shape.kind.Picture? && dirOk && shape.kind.blobOk && shape.kind.writeOk {
        var e := PictureExtension(shape.kind.ext);
        var last := Child(dir, SlideImageName(s, |shapes|, e));
        assert f.rec.extractedFiles == g.rec.extractedFiles + [last];
        assert (g.rec.extractedFiles + [last])[..k] == g.rec.extractedFiles[..k];
        assert PictureFileOn(last, dir, s, |shapes|);
        forall j | k <= j < |g.rec.extractedFiles|
          ensures g.rec.extractedFiles[j] != last
        {
          var i: nat, e' :| 1 <= i <= |init| && g.rec.extractedFiles[j] == Child(dir, SlideImageName(s, i, e'));
          DistinctPlaces(dir, s, i, e', s, |shapes|, e);
        }
      }
    }
  }

  /**
   * All slides: the counts add up over the slides, every file is named after a slide and a
   * place on it, and no two files share a path.
   */
  lemma {:induction false} SlidesFoldSpec(st: ShapeRun, dir: Path, dirOk: bool, slides: seq<Slide>)
    ensures var f := SlidesFold(st, dir, dirOk, slides);
      var k := |st.rec.extractedFiles|;
      && Kept(st.rec, f.rec)
      && (dirOk ==>
            && f.count == st.count + Readable(slides)
            && |f.rec.extractedFiles| == k + Saved(slides)
            && f.rec.warnings == st.rec.warnings)
      && (!dirOk ==>
            && f.count == st.count
            && f.rec.extractedFiles == st.rec.extractedFiles
            && |f.rec.warnings| == |st.rec.warnings| + Pictures(slides))
      && (forall j :: k <= j < |f.rec.extractedFiles| ==> PictureFile(f.rec.extractedFiles[j], dir, |slides|))
      && (forall a, b :: k <= a < b < |f.rec.extractedFiles| ==> f.rec.extractedFiles[a] != f.rec.extractedFiles[b])
  {
    if slides != [] {
      var init := slides[..|slides| - 1];
      var n := |slides|;
      var shapes := slides[n - 1].shapes;
      SlidesFoldSpec(st, dir, dirOk, init);
      var g := SlidesFold(st, dir, dirOk, init);
      ShapesFoldSpec(g, dir, dirOk, n, shapes);
      var f := SlidesFold(st, dir, dirOk, slides);
      var k := |st.rec.extractedFiles|;
      var m := |g.rec.extractedFiles|;
      assert f.rec.extractedFiles[..k] == f.rec.extractedFiles[..m][..k];
      forall j | k <= j < m
        ensures PictureFile(f.rec.extractedFiles[j], dir, n)
      {
        assert f.rec.extractedFiles[j] == g.rec.extractedFiles[j];
        var s: nat, i: nat, e :| 1 <= s <= |init| && g.rec.extractedFiles[j] == Child(dir, SlideImageName(s, i, e));
      }
      forall j | m <= j < |f.rec.extractedFiles|
        ensures PictureFile(f.rec.extractedFiles[j], dir, n)
      {
        var i: nat, e :| 1 <= i <= |shapes| && f.rec.extractedFiles[j] == Child(dir, SlideImageName(n, i, e));
      }
      forall a, b | k <= a < m <= b < |f.rec.extractedFiles|
        ensures f.rec.extractedFiles[a] != f.rec.extractedFiles[b]
      {
        assert f.rec.extractedFiles[a] == g.rec.extractedFiles[a];
        var s: nat, i: nat, e :| 1 <= s <= |init| && g.rec.extractedFiles[a] == Child(dir, SlideImageName(s, i, e));
        var i': nat, e' :| 1 <= i' <= |shapes| && f.rec.extractedFiles[b] == Child(dir, SlideImageName(n, i', e'));
        DistinctPlaces(dir, s, i, e, n, i', e');
      }
      forall a, b | k <= a < b < m
        ensures f.rec.extractedFiles[a] != f.rec.extractedFiles[b]
      {
        assert f.rec.extractedFiles[a] == g.rec.extractedFiles[a] && f.rec.extractedFiles[b] == g.rec.extractedFiles[b];
      }
    }
  }

  /** What `charts_found` holds after `k` more charts, starting from `v`. */
  function ChartsAfter(v: Option<MetaValue>, k: nat): Option<MetaValue> {
    if k == 0 then v
    else match v
      case None => Some(Count(k))
      case Some(c) => if c.Count? then Some(Count(c.n + k)) else v
  }

  /** Helper for the folds below: adding charts in two steps is adding them in one. */
  lemma ChartsAfterAdd(v: Option<MetaValue>, a: nat, b: nat)
    ensures ChartsAfter(ChartsAfter(v, a), b) == ChartsAfter(v, a + b)
  {
  }

  /** One chart step: `charts_found` goes up by one and no other key changes. */
  lemma ChartStepSpec(rec: ResultRecord, other: string)
    ensures Lookup(ChartStep(rec).metadata, ChartsKey) == ChartsAfter(Lookup(rec.metadata, ChartsKey), 1)
    ensures other != ChartsKey ==> Lookup(ChartStep(rec).metadata, other) == Lookup(rec.metadata, other)
  {
    var v := Lookup(rec.metadata, ChartsKey);
    if v.None? || v.value.Count? {
      var nv := if v.None? then Count(1) else Count(v.value.n + 1);
      SetKeyLookup(rec.metadata, ChartsKey, nv, ChartsKey);
      SetKeyLookup(rec.metadata, ChartsKey, nv, other);
    }
  }

  /** Over one slide, `charts_found` goes up by the slide's charts and no other key changes. */
  lemma {:induction false} ShapesCharts(st: ShapeRun, dir: Path, dirOk: bool, s: nat, shapes: seq<Shape>, other: string)
    ensures var f := ShapesFold(st, dir, dirOk, s, shapes);
      && Lookup(f.rec.metadata, ChartsKey) == ChartsAfter(Lookup(st.rec.metadata, ChartsKey), ChartsOn(shapes))
      && (other != ChartsKey ==> Lookup(f.rec.metadata, other) == Lookup(st.rec.metadata, other))
  {
    if shapes != [] {
      var init := shapes[..|shapes| - 1];
      ShapesCharts(st, dir, dirOk, s, init, other);
      var g := ShapesFold(st, dir, dirOk, s, init);
      if shapes[|shapes| - 1].kind.Chart? {
        ChartStepSpec(g.rec, other);
        ChartsAfterAdd(Lookup(st.rec.metadata, ChartsKey), ChartsOn(init), 1);
      }
    }
  }

  /**
   * Over the whole presentation, `charts_found` goes up by one per chart shape and no other
   * metadata key changes.
   */
  lemma {:induction false} SlidesCharts(st: ShapeRun, dir: Path, dirOk: bool, slides: seq<Slide>, other: string)
    ensures var f := SlidesFold(st, dir, dirOk, slides);
      && Lookup(f.rec.metadata, ChartsKey) == ChartsAfter(Lookup(st.rec.metadata, ChartsKey), Charts(slides))
      && (other != ChartsKey ==> Lookup(f.rec.metadata, other) == Lookup(st.rec.metadata, other))
  {
    if slides != [] {
      var init := slides[..|slides| - 1];
      SlidesCharts(st, dir, dirOk, init, other);
      var g := SlidesFold(st, dir, dirOk, init);
      ShapesCharts(g, dir, dirOk, |slides|, slides[|slides| - 1].shapes, other);
      ChartsAfterAdd(Lookup(st.rec.metadata, ChartsKey), Charts(init), ChartsOn(slides[|slides| - 1].shapes));
    }
  }

  /**
   * `_extract_images` as a whole, its outer handler included: only files, warnings and chart
   * counts change; the files it adds are pictures of the presentation's slides, no two alike.
   */
  lemma ImagesOfSpec(rec: ResultRecord, deck: Deck, dir: Path, dirOk: bool)
    ensures var im := ImagesOf(rec, deck, dir, dirOk);
      var k := |rec.extractedFiles|;
      && Kept(rec, im.0)
      && (forall j :: k <= j < |im.0.extractedFiles| ==> PictureFile(im.0.extractedFiles[j], dir, |deck.slides|))
      && (forall a, b :: k <= a < b < |im.0.extractedFiles| ==> im.0.extractedFiles[a] != im.0.extractedFiles[b])
  {
    var n := Reached(deck.slides);
    var k := |rec.extractedFiles|;
    SlidesFoldSpec(ShapeRun(rec, 0), dir, dirOk, deck.slides[..n]);
    var st := SlidesFold(ShapeRun(rec, 0), dir, dirOk, deck.slides[..n]);
    forall j | k <= j < |st.rec.extractedFiles|
      ensures PictureFile(st.rec.extractedFiles[j], dir, |deck.slides|)
    {
      var sl: nat, i: nat, e :| 1 <= sl <= n && st.rec.extractedFiles[j] == Child(dir, SlideImageName(sl, i, e));
    }
  }

  /** When every slide can be enumerated, `_extract_images` is the loop over all of them. */
  lemma ImagesOfComplete(rec: ResultRecord, deck: Deck, dir: Path, dirOk: bool)
    requires forall i :: 0 <= i < |deck.slides| ==> deck.slides[i].shapesError.None?
    ensures var st := SlidesFold(ShapeRun(rec, 0), dir, dirOk, deck.slides);
      ImagesOf(rec, deck, dir, dirOk) == (st.rec, st.count)
  {
    assert Reached(deck.slides) == |deck.slides|;
    assert deck.slides[..|deck.slides|] == deck.slides;
  }

  /**
   * When enumerating slide `n` raises, `_extract_images` returns 0 and warns once with the
   * exception, yet the files and chart counts of the slides before it stay recorded.
   */
  lemma AbortKeepsFiles(rec: ResultRecord, deck: Deck, dir: Path, dirOk: bool, n: nat)
    requires n < |deck.slides| && deck.slides[n].shapesError.Some?
    requires forall i :: 0 <= i < n ==> deck.slides[i].shapesError.None?
    ensures var im := ImagesOf(rec, deck, dir, dirOk);
      var st := SlidesFold(ShapeRun(rec, 0), dir, dirOk, deck.slides[..n]);
      && im.1 == 0 && im.0.extractedFiles == st.rec.extractedFiles && im.0.metadata == st.rec.metadata
      && im.0.warnings == st.rec.warnings + [ImageErrorWarning(deck.slides[n].shapesError.value)]
  {
    var m := Reached(deck.slides);
    assert m == n;
  }

  // ---------------------------------------------------------------------------------------
  // Properties of `extract`

  /**
   * The result names the file, is successful exactly when it holds no error, and holds at
   * most one error: every error ends the extraction.
   */
  lemma ExtractConsistent(pptxAvailable: bool, extractImages: bool, filepath: Path, outputDir: Path, safe: string, env: PptxEnv)
    ensures var r := PptxExtract(pptxAvailable, extractImages, filepath, outputDir, safe, env);
      r.sourceFile == filepath && r.Consistent() && |r.errors| <= 1
  {
    if Opens(pptxAvailable, env) && !TextWriteFails(env.deck.value, env) && extractImages {
      var deck := env.deck.value;
      var rec := AfterText(OpenedRecord(filepath, deck), deck, TextOutput(outputDir, safe));
      ImagesOfSpec(rec, deck, ImagesDir(outputDir, safe), env.imagesDirOk);
    }
  }

  /**
   * A presentation that opens and whose text can be read and written always yields a
   * successful result with its text file first; without image extraction that file is all.
   */
  lemma TextFileFirst(extractImages: bool, filepath: Path, outputDir: Path, safe: string, deck: Deck, env: PptxEnv)
    requires deck.textError.None? && env.textWriteError.None?
    ensures var r := ExtractOpened(extractImages, filepath, outputDir, safe, deck, env);
      && r.success && r.errors == []
      && r.extractedFiles != [] && r.extractedFiles[0] == TextOutput(outputDir, safe)
      && (!extractImages ==> r.extractedFiles == [TextOutput(outputDir, safe)])
  {
    TextIff(deck);
    var out := TextOutput(outputDir, safe);
    var rec := AfterText(OpenedRecord(filepath, deck), deck, out);
    assert rec.extractedFiles == [out] && rec.errors == [] && rec.success;
    if extractImages {
      var im := ImagesOf(rec, deck, ImagesDir(outputDir, safe), env.imagesDirOk);
      ImagesOfSpec(rec, deck, ImagesDir(outputDir, safe), env.imagesDirOk);
      var files := im.0.extractedFiles;
      assert files[..1] == [out];
      assert files[0] == files[..1][0];
    }
  }

  /**
   * With image extraction on, `charts_found` ends up as the number of chart shapes on the
   * slides `_extract_images` gets through when there is one, and is absent otherwise (every
   * slide when all can be enumerated); `slide_count` is the number of slides.
   */
  lemma ChartsFoundCount(filepath: Path, outputDir: Path, safe: string, deck: Deck, env: PptxEnv)
    requires !TextWriteFails(deck, env)
    ensures var r := ExtractOpened(true, filepath, outputDir, safe, deck, env);
      var charts := Charts(deck.slides[..Reached(deck.slides)]);
      && Lookup(r.metadata, ChartsKey) == (if charts == 0 then None else Some(Count(charts)))
      && Lookup(r.metadata, "slide_count") == Some(Count(|deck.slides|))
  {
    var rec := AfterText(OpenedRecord(filepath, deck), deck, TextOutput(outputDir, safe));
    SetKeyLookup([], "slide_count", Count(|deck.slides|), ChartsKey);
    SetKeyLookup([], "slide_count", Count(|deck.slides|), "slide_count");
    var dir := ImagesDir(outputDir, safe);
    var pre := deck.slides[..Reached(deck.slides)];
    SlidesCharts(ShapeRun(rec, 0), dir, env.imagesDirOk, pre, "slide_count");
    var st := SlidesFold(ShapeRun(rec, 0), dir, env.imagesDirOk, pre);
    var im := ImagesOf(rec, deck, dir, env.imagesDirOk);
    assert im.0.metadata == st.rec.metadata;
    SetKeyLookup(im.0.metadata, "images_extracted", Count(im.1), ChartsKey);
    SetKeyLookup(im.0.metadata, "images_extracted", Count(im.1), "slide_count");
  }

  // ---------------------------------------------------------------------------------------
  // The extractor object

  class PowerPointExtractor {
    const pptxAvailable: bool
    const extractImages: bool

    /**
     * `PowerPointExtractor(..., extract_images)`: `pptxAvailable` is whether `import pptx`
     * succeeds; image extraction is off unless asked for.
     */
    constructor (pptxAvailable: bool, extractImages: bool)
      ensures this.pptxAvailable == pptxAvailable && this.extractImages == extractImages
    {
      this.pptxAvailable := pptxAvailable;
      this.extractImages := extractImages;
    }

    /** `_extract_text`, writing into `result`. */
    method ExtractText(deck: Deck, result: ExtractionResult) returns (text: string)
      modifies result
      ensures text == TextOf(deck)
      ensures result.Snapshot() == TextRecord(old(result.Snapshot()), deck)
    {
      if deck.textError.Some? {
        result.AddWarning("Text extraction error: " + deck.textError.value);
        return "";
      }
      var slidesParts := SlidesText(deck.slides);
      var parts := DeckHeader(|deck.slides|) + slidesParts;
      text := Concat(parts);
    }

    /** The slide loop of `_extract_text`. */
    method SlidesText(slides: seq<Slide>) returns (parts: seq<string>)
      ensures parts == SlidesParts(slides)
    {
      parts := [];
      for n := 0 to |slides|
        invariant parts == SlidesParts(slides[..n])
      {
        assert slides[..n + 1][..n] == slides[..n];
        var slideParts := SlideText(n + 1, slides[n]);
        parts := parts + slideParts;
      }
      assert slides[..|slides|] == slides;
    }

    /** The body of the slide loop of `_extract_text`: banner, shapes, notes. */
    method SlideText(n: nat, slide: Slide) returns (parts: seq<string>)
      ensures parts == SlideParts(n, slide)
    {
      parts := ["\n" + Banner + "\n", "SLIDE " + NatToString(n) + "\n", Banner + "\n\n"];
      var shapes := slide.shapes;
      for k := 0 to |shapes|
        invariant parts == ["\n" + Banner + "\n", "SLIDE " + NatToString(n) + "\n", Banner + "\n\n"] + ShapesParts(shapes[..k])
      {
        assert shapes[..k + 1][..k] == shapes[..k];
        var shape := shapes[k];
        if shape.text.Some? && Strip(shape.text.value) != "" {
          parts := parts + [shape.text.value + "\n"];
        }
      }
      assert shapes[..|shapes|] == shapes;
      if slide.notes.Some? {
        var notesText := Strip(slide.notes.value);
        if notesText != "" {
          parts := parts + ["\n--- NOTES ---\n", notesText + "\n"];
        }
      }
      parts := parts + ["\n"];
    }

    /** `_extract_images`, writing into `result`; `dirOk` is what `ensure_output_dir(dir)` answers. */
    method ExtractImages(deck: Deck, dir: Path, dirOk: bool, result: ExtractionResult) returns (count: nat)
      modifies result
      ensures (result.Snapshot(), count) == ImagesOf(old(result.Snapshot()), deck, dir, dirOk)
    {
      count := 0;
      var slides := deck.slides;
      ghost var st0 := ShapeRun(result.Snapshot(), 0);
      ghost var n := Reached(slides);
      var s := 0;
      while s < |slides|
        invariant s <= n
        invariant ShapeRun(result.Snapshot(), count) == SlidesFold(st0, dir, dirOk, slides[..s])
      {
        if slides[s].shapesError.Some? {
          assert s == n;
          result.AddWarning(ImageErrorWarning(slides[s].shapesError.value));
          count := 0;
          return;
        }
        assert slides[..s + 1][..s] == slides[..s];
        count := SlideImages(dir, dirOk, s + 1, slides[s].shapes, result, count);
        s := s + 1;
      }
      assert slides[..n] == slides;
    }

    /** The shape loop of `_extract_images` for slide `s`. */
    method SlideImages(dir: Path, dirOk: bool, s: nat, shapes: seq<Shape>, result: ExtractionResult, count0: nat)
      returns (count: nat)
      modifies result
      ensures ShapeRun(result.Snapshot(), count) == ShapesFold(ShapeRun(old(result.Snapshot()), count0), dir, dirOk, s, shapes)
    {
      count := count0;
      for k := 0 to |shapes|
        invariant ShapeRun(result.Snapshot(), count) == ShapesFold(ShapeRun(old(result.Snapshot()), count0), dir, dirOk, s, shapes[..k])
      {
        assert shapes[..k + 1][..k] == shapes[..k];
        match shapes[k].kind {
          case Picture(ext, blobOk, writeOk) =>
            if !dirOk {
              result.AddWarning(ImagesDirWarning(dir));
            } else if blobOk {
              count := count + 1;
              var imgPath := Child(dir, SlideImageName(s, k + 1, PictureExtension(ext)));
              if writeOk {
                result.AddFile(imgPath);
              }
            }
          case Chart =>
            var current := Lookup(result.metadata, ChartsKey);
            if current.None? {
              result.SetMetadata(ChartsKey, Count(1));
            } else if current.value.Count? {
              result.SetMetadata(ChartsKey, Count(current.value.n + 1));
            }
          case Plain =>
        }
      }
      assert shapes[..|shapes|] == shapes;
    }

    /** `extract(filepath, output_dir)`. */
    method Extract(filepath: Path, outputDir: Path, env: PptxEnv) returns (r: ResultRecord)
      ensures r == PptxExtract(pptxAvailable, extractImages, filepath, outputDir, Sanitize(Name(filepath), DefaultMaxLength), env)
    {
      var result := new ExtractionResult(filepath, true);
      if !pptxAvailable {
        result.AddError(NotInstalled);
        return result.Snapshot();
      }
      if env.importError.Some? {
        result.AddError(FailedMessage(filepath, env.importError.value));
        return result.Snapshot();
      }
      if !env.outputDirOk {
        result.AddError(OutputDirError(outputDir));
        return result.Snapshot();
      }
      var fileSafeName := SanitizeFilename(Name(filepath), DefaultMaxLength);
      if env.deck.Err? {
        result.AddError(FailedMessage(filepath, env.deck.message));
        return result.Snapshot();
      }
      ExtractDeck(filepath, outputDir, env.deck.value, env, fileSafeName, result);
      r := result.Snapshot();
    }

    /** The body of `extract` from the opened presentation on. */
    method ExtractDeck(filepath: Path, outputDir: Path, deck: Deck, env: PptxEnv, fileSafeName: string,
                       result: ExtractionResult)
      requires result.Snapshot() == NewRecord(filepath)
      modifies result
      ensures result.Snapshot() == ExtractOpened(extractImages, filepath, outputDir, fileSafeName, deck, env)
    {
      var imagesDir := ImagesDir(outputDir, fileSafeName);
      result.SetMetadata("slide_count", Count(|deck.slides|));
      var textOutput := TextOutput(outputDir, fileSafeName);
      var textContent := ExtractText(deck, result);
      if Strip(textContent) != "" {
        if env.textWriteError.Some? {
          result.AddError(FailedMessage(filepath, env.textWriteError.value));
          return;
        }
        result.AddFile(textOutput);
      } else {
        result.AddWarning(NoText);
      }
      if extractImages {
        var imageCount := ExtractImages(deck, imagesDir, env.imagesDirOk, result);
        if imageCount > 0 {
          result.SetMetadata("images_extracted", Count(imageCount));
        }
      }
      if |result.extractedFiles| > 0 {
        result.MarkSuccess();
      } else {
        result.AddWarning(NoData);
      }
    }
  }
}
